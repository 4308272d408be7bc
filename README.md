# EMA crossover bot: feed and order gating

This project models the two pieces of the trading bot that hold state.

- **`TradeLockerFeed`** is the bar feed. It loads a historical table when it starts. After that it polls for live bars, which pass through three gates: the session window, the weekday and a de-duplication check. Live bars wait in a first-in first-out buffer, and a cursor `next()` decides whether to step through the table or to poll.
- **`EmaCrossStrategy`** keeps at most one order in flight. `next()` places a buy or a sell from the crossover sign, and `notify_order` clears the pending order.

Files, one module each:

- `calendar.dfy` (`Calendar`): an instant is a `Stamp`. It holds a day number, a minute of the day and the microseconds within that minute. Day 0 is a Monday, so the weekday is `day % 7` with Monday = 0, as Python's `weekday()` numbers them. The sub-minute part is kept because the session test `session_start <= now.time() <= session_end` is false at 16:00:30 when the session ends at 16:00.
- `timeframe.dfy` (`Timeframe`): the intraday test on the timeframe's last character, and the parse of its numeric prefix. The parse is checked against a decimal printer.
- `config.dfy` (`FeedConfig`): the constructor's checks and the parameters a feed keeps.
- `history.dfy` (`History`): the date walk of the historical loader as functions, with its lemmas: the exact set of timestamps produced, strict ordering, and when the table is empty.
- `feed_spec.dfy` (`FeedSpec`): the feed state as a value, and each operation as a function of it. This covers the poller's gates, `_load_next_live_bar`, `_get_bar`, `next()` and `haslivedata()`. Lemmas state what holds over any sequence of `next()` and `_get_bar()` calls.
- `feed.dfy` (`Feed`): the class `TradeLockerFeed`. Its fields change in place and its loops are the source's loops. Each method is proved to produce exactly the state the matching `FeedSpec` function gives.
- `strategy.dfy` (`Strategy`): the pending-order machine. It has a class with one field `pending`, the decision functions, and lemmas over sequences of bars and notifications.
- `wrappers.dfy` (`Wrappers`): `Option` and `Result`.

Inputs that come from outside the code are parameters:

- "now" is a `Stamp` argument instead of a clock read.
- Session bounds are minutes of the day, not `'HH:MM'` strings.
- The API connection is a boolean.
- Prices are a given `Quote`: a function from row number to quote for the table, and one quote per live poll.

## Where the code departs from its own comments

The model follows what the code does in each case.

- **The cursor never enters the table.** `start()` sets `_idx` to -1 (tradelocker_feed.py:81). The comment "Still have historical data to process" (line 294) and the docstring of `_next_historical` (line 283) speak of stepping through the table. But with a non-empty table, `next()` matches neither cursor branch: `0 <= _idx < len-1` (line 293) needs `_idx >= 0`, and `_idx == len-1` (line 299) needs `len == 0`. So it polls for a live bar, `_idx` stays -1 forever, and `_get_bar` only ever hands out live bars. `FeedSpec.NextSpec` and the fourth clause of `FeedSpec.CursorMonotone` state this. With an empty table, `_idx == len-1` holds at -1, so the first `next()` moves the cursor to 0 and polls, as the comment "Last historical bar, advance to live mode" (line 300) says.
- **There is no end of feed.** After the table, every branch of `next()` (lines 298-312) returns the result of a live poll. No call ever reports that the feed is exhausted.
- **The timeframe prefix is always minutes.** The parameter comment (line 20) lists `'1h'` as a timeframe. Lines 116 and 184 read the prefix as a count of minutes whatever the unit, and line 43 calls every unit other than `d`, `w` and `m` intraday. So `"1h"` steps by one minute, `"15"` (unit `5`) by one minute, and `"1m"` and `"5m"` are daily.
- **Intraday days can run past `todate`.** The day walk compares the day at `fromdate`'s clock time against `todate`. Every weekday that passes this test contributes its whole 9:30–16:00 grid, even the part after `todate`.
- **Historical prices are not ordered.** Lines 138-139 set `high` to `max(open, close)` plus normal noise of mean 0.05 and deviation 0.05, and `low` likewise below `min(open, close)`. The noise can be negative, so `high` can fall below `max(open, close)`. Prices are not modelled and no price relation is claimed.

## Model

| member | source | states |
|---|---|---|
| FeedConfig.CheckConfig | tradelocker_feed.py:32-43 | construction fails on a missing API handle (checked first), then on a missing symbol; an empty timeframe fails (`timeframe[-1]` raises); otherwise the feed is intraday exactly when the timeframe's last character is not d, w or m, its step is the parsed prefix `int(timeframe[:-1])` and is positive exactly when that parse gives a positive number, and the dates and session bounds are kept |
| Timeframe.ParseInt | tradelocker_feed.py:116 | `int(prefix)` succeeds exactly for a non-empty string of digits, optionally after one `+` or `-`; digits give their decimal value, and a sign gives that value negated for `-` and unchanged for `+` |
| Timeframe.ParseShow | tradelocker_feed.py:184 | parsing undoes decimal rendering, with or without a minus sign |
| Timeframe.IntradayStep | tradelocker_feed.py:184 | every timeframe `<n><unit>` with unit not d/w/m is intraday with a step of n minutes, whatever the unit ("1h" steps by 1) |
| FeedConfig.IntradayFeedStep | tradelocker_feed.py:184 | a configuration with timeframe `<n><unit>`, unit not d/w/m, is accepted as an intraday feed whose step is n minutes |
| Timeframe.DailyUnits | tradelocker_feed.py:43 | units d, w and m make any timeframe daily, so "1m" and "5m" are daily |
| History.Table | tradelocker_feed.py:142-150 | the table's times are exactly the generated timestamps, in the same order, so strictly increasing timestamps give a table in strict time order |
| History.SessionBarsMembership | tradelocker_feed.py:103-116 | one intraday day yields exactly the minutes m, m+step, ... below 16:00, with zero seconds |
| History.DayBarsMembership | tradelocker_feed.py:101-124 | one day contributes only timestamps on that day, and only if it is a weekday: its session grid (intraday) or the walk's own timestamp (daily) |
| History.DatesMembership | tradelocker_feed.py:95-124 | a timestamp is generated exactly when its day is walked (from fromdate's day, at fromdate's clock time, up to todate) and is a weekday; intraday it lies on the 9:30 + k·step grid below 16:00, daily it has fromdate's clock time |
| History.DatesIncreasing | tradelocker_feed.py:99-124 | generated timestamps are strictly increasing |
| History.DatesEmptyIff | tradelocker_feed.py:126-133 | the table is empty exactly when the walked range contains no weekday |
| History.EmptyRange | tradelocker_feed.py:99-100 | fromdate later than todate gives an empty table, not an error |
| FeedSpec.Started | tradelocker_feed.py:70-81 | after start the cursor is -1; the table holds the generated timestamps in strictly increasing order; `last_bar_time` is the last row's time, or unchanged when the table is empty; the buffer and `last_bar` are untouched |
| FeedSpec.FloorToStep | tradelocker_feed.py:184-186 | the floored minute is a multiple of the step, at most now's minute, and more than now's minute minus the step |
| FeedSpec.LiveBarTime | tradelocker_feed.py:182-195 | the live bar's time is a valid instant on today, not after now, with zero seconds: the floored slot intraday, midnight when daily |
| FeedSpec.FetchLive | tradelocker_feed.py:159-227 | no bar exactly when now is outside the inclusive session (checked only if both bounds are set), on a weekend, or when the slot is not strictly after `last_bar_time`; a bar produced is strictly after the old `last_bar_time` and becomes `last_bar` and the new `last_bar_time`; nothing changes otherwise |
| FeedSpec.LoadNextLive | tradelocker_feed.py:229-235 | returns true exactly when a bar is fetched, and then appends exactly that bar at the end of the buffer; on false nothing changes |
| FeedSpec.NextSpec | tradelocker_feed.py:291-312 | the cursor never decreases and the table is untouched; inside the table (0 ≤ idx < len−1) it moves one row and returns true with nothing else changed; at len−1 it becomes len; elsewhere it stays put; outside the first case the result, buffer, `last_bar` and `last_bar_time` are exactly those of one live poll (`_load_next_live_bar`) at the new cursor, so the result is true exactly when one polled bar was appended |
| FeedSpec.GetBarSpec | tradelocker_feed.py:237-254 | with the cursor in the table, returns that row and changes nothing; otherwise returns the oldest buffered bar and removes exactly it; with an empty buffer it polls once and returns the polled bar, leaving the buffer empty; None only when the buffer is empty and the poll fails |
| FeedSpec.AdvanceKeepsOrder | tradelocker_feed.py:229-235 | `next()` keeps the buffer in time order, with its newest bar at `last_bar_time` |
| FeedSpec.FetchKeepsOrder | tradelocker_feed.py:244-252 | `_get_bar` keeps the buffer in time order, and every bar left behind is later than the live bar handed out |
| FeedSpec.LiveDeliveriesAboveFloor | tradelocker_feed.py:197-199 | over any sequence of `next()` and `_get_bar()` calls, the live bars handed out have strictly increasing times, all above any floor that bounds the buffer and `last_bar_time` |
| FeedSpec.LiveBarsFollowHistory | tradelocker_feed.py:153-154 | from a started feed (empty buffer), the live bars handed out are strictly increasing and all strictly after `last_bar_time`, which is the last historical bar's time |
| FeedSpec.LiveBufferIsFifo | tradelocker_feed.py:229-254 | over any sequence of calls, the bars buffered before plus those polled since equal the live bars handed out plus those still buffered: none is lost, duplicated or reordered |
| FeedSpec.CursorMonotone | tradelocker_feed.py:282-312 | over any sequence of calls the table is unchanged and the cursor never decreases; once past the table it never moves; at -1 with a non-empty table it never moves |
| FeedSpec.LiveDataOncePastTable | tradelocker_feed.py:322-324 | once the cursor is past the table, `haslivedata()` holds after any sequence of calls |
| FeedSpec.HasLiveData | tradelocker_feed.py:322-324 | `haslivedata()` holds exactly when the buffer is non-empty or the cursor is at or past the end of the table |
| FeedSpec.ClosedMarketIsIdle | tradelocker_feed.py:167-179 | any number of `next()` calls outside the session or on a weekend buffer nothing and leave `last_bar` and `last_bar_time` unchanged |
| Feed.TradeLockerFeed.constructor | tradelocker_feed.py:32-68 | a feed built from an accepted configuration keeps its parameters and starts with no table, an empty buffer and no last bar |
| Feed.TradeLockerFeed.Start | tradelocker_feed.py:70-81 | without a connection nothing changes (the source raises); otherwise the state becomes `FeedSpec.Started` of the old one |
| Feed.TradeLockerFeed.LoadHistoricalData | tradelocker_feed.py:83-157 | the table becomes the generated timestamps paired with the quotes; `last_bar_time` becomes the last timestamp, or is left alone for an empty table |
| Feed.TradeLockerFeed.HistoricalTimestamps | tradelocker_feed.py:95-124 | the nested day and minute loops produce exactly `History.HistoricalDates` |
| Feed.TradeLockerFeed.FetchLiveBar | tradelocker_feed.py:159-227 | the three gates in order; the result and the new `last_bar`/`last_bar_time` are those of `FeedSpec.FetchLive` |
| Feed.TradeLockerFeed.LoadNextLiveBar | tradelocker_feed.py:229-235 | appends a fetched bar to the buffer, as `FeedSpec.LoadNextLive` |
| Feed.TradeLockerFeed.GetBar | tradelocker_feed.py:237-254 | returns the row or the front of the buffer (polling first when it is empty), as `FeedSpec.GetBarSpec` |
| Feed.TradeLockerFeed.NextHistorical | tradelocker_feed.py:282-285 | the cursor moves one row; the result says whether it is still in the table |
| Feed.TradeLockerFeed.NextLive | tradelocker_feed.py:287-289 | one live poll, as `FeedSpec.LoadNextLive` |
| Feed.TradeLockerFeed.Next | tradelocker_feed.py:291-312 | the new cursor, buffer, last bar and result are those of `FeedSpec.NextSpec` |
| Strategy.Decide | momentum_bot.py:74-98 | no order while one is pending; a buy exactly when flat, nothing pending and crossover > 0; a sell exactly when in position, nothing pending and crossover < 0; otherwise none (one action per call, never both) |
| Strategy.PendingAfter | momentum_bot.py:47-65 | the pending order survives a notification exactly when its status is Submitted or Accepted; every other status clears it, listed or not |
| Strategy.EmaCrossStrategy.constructor | momentum_bot.py:35-36 | a new strategy has no pending order |
| Strategy.EmaCrossStrategy.Next | momentum_bot.py:74-98 | acts as `Decide`; an order placed is recorded as pending, and a pending order stays pending |
| Strategy.EmaCrossStrategy.NotifyOrder | momentum_bot.py:47-65 | the pending flag becomes `PendingAfter` of the old flag and the status |
| Strategy.NoOrderWhilePending | momentum_bot.py:77-78 | while no notification resolves the pending order, any sequence of bars places no order and the order stays pending |
| Strategy.OrdersBoundedByResolutions | momentum_bot.py:84-98 | over any sequence of bars and notifications, the orders placed number at most the resolving notifications, plus one if nothing was pending at the start |

## Left out

- Framework plumbing is not modelled: `preload`, `load_next` (it calls the framework's own `next`), `_load_bar` (it writes into the framework's lines through `bt.date2num`), `islive` and `stop`. They belong to a framework outside this model.
- Price and volume synthesis (random normal noise for the table, clock-derived values for live bars, the fixed first-bar prices) is not modelled. Each bar carries a `Quote` supplied by the caller, and no price relation is claimed.
- The clock and `strptime` are not modelled. "now" is a parameter and session bounds are minutes of the day. The two `datetime.now()` reads for the default range are taken as one instant.
- Timezones, the `tz`, `backfill` and `ohlcv` parameters, `dtformat`, `dataformats` and the `hist_loaded` flag are not modelled. The code never reads them.
- The `historical=False` mode is not modelled. Its branch in `next()` (tradelocker_feed.py:303-306) cannot run, because `len(self.hist_data)` fails on `None` first. The feed always loads its table at start.
- Feed.TradeLockerFeed.constructor: requires an intraday timeframe's prefix to parse to a positive step. The source accepts any prefix, then raises `ValueError` (unparsable), loops forever in the loader (zero or negative) or divides by zero in the poller.
- Feed.TradeLockerFeed.GetBar: requires `start()` to have run. Before it, `_idx` and `hist_data` do not exist and the source raises. The same holds for `Next` and `NextHistorical`.
- Timeframe.ParseInt: accepts only an optional sign followed by ASCII digits. Python's `int` also strips surrounding whitespace and accepts underscores between digits and non-ASCII digits.
- Connection handling is a boolean argument to `Start`. The `TradeLockerAPI` stub, argument parsing, the backtest and live-trading drivers, the broker, sizer, analyzers, plotting and all logging are not modelled.
- The EMA and crossover indicators are not modelled: the strategy takes the crossover's sign and whether a position is held as inputs. `notify_trade` only logs.
- Strategy.EmaCrossStrategy.Next: assumes `buy()` and `sell()` always return an order. The framework returns `None` when the sizer gives a zero size, which would leave nothing pending.
