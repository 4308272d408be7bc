/**
 * The feed object: its fields change in place as the consumer calls `start`,
 * `next` and `_get_bar`. Each method is proved to do what the matching
 * function of FeedSpec says, so the lemmas there apply to it.
 */
module Feed {
  import opened Wrappers
  import opened Calendar
  import opened FeedConfig
  import opened History
  import opened FeedSpec

  class TradeLockerFeed {
    const params: Params
    /** `start()` has run, so `hist_data` and `_idx` exist. */
    var started: bool
    var table: seq<Bar>
    var idx: int
    var liveBuffer: seq<Bar>
    var lastBarTime: Option<Stamp>
    var lastBar: Option<Bar>

    /** The fields as one value, for the specification functions. */
    function State(): FeedState
      reads this
    {
      FeedState(table, idx, liveBuffer, lastBarTime, lastBar)
    }

    /** `__init__` on a configuration CheckConfig accepts; nothing is loaded yet. */
    constructor (c: Config)
      requires CheckConfig(c).Success? && ValidParams(CheckConfig(c).value)
      ensures params == CheckConfig(c).value && ValidParams(params)
      ensures !started && table == [] && liveBuffer == [] && lastBarTime == None && lastBar == None
    {
      params := CheckConfig(c).value;
      started := false;
      table := [];
      idx := -1;
      liveBuffer := [];
      lastBarTime := None;
      lastBar := None;
    }

    /**
     * `start()`: `connected` is whether the API is connected or `connect()`
     * succeeds; without it nothing changes (the source raises RuntimeError).
     */
    method Start(connected: bool, now: Stamp, quotes: nat -> Quote) returns (ok: bool)
      requires ValidParams(params)
      modifies this`started, this`table, this`idx, this`lastBarTime
      ensures ok == connected
      ensures !ok ==> started == old(started) && State() == old(State())
      ensures ok ==> started && State() == Started(params, old(State()), now, quotes)
    {
      if !connected {
        return false;
      }
      LoadHistoricalData(now, quotes);
      idx := -1;
      started := true;
      ok := true;
    }

    /**
     * `_load_historical_data`: generate the timestamps, pair them with the
     * quotes and remember the last timestamp; an empty range leaves an empty table.
     */
    method LoadHistoricalData(now: Stamp, quotes: nat -> Quote)
      requires ValidParams(params)
      modifies this`table, this`lastBarTime
      ensures table == Table(HistoricalDates(params, now), quotes)
      ensures lastBarTime == if table == [] then old(lastBarTime) else Some(table[|table| - 1].time)
    {
      var dates := HistoricalTimestamps(now);
      if |dates| == 0 {
        table := [];
        return;
      }
      table := Table(dates, quotes);
      lastBarTime := Some(dates[|dates| - 1]);
    }

    /**
     * The date loop of `_load_historical_data`: walk the days of the range, one
     * timestamp per weekday (daily) or the session grid of each weekday (intraday).
     */
    method HistoricalTimestamps(now: Stamp) returns (dates: seq<Stamp>)
      requires ValidParams(params)
      ensures dates == HistoricalDates(params, now)
    {
      dates := [];
      var start := RangeStart(params, now);
      var end := RangeEnd(params, now);
      var current := start;
      while Le(current, end)
        invariant dates + Dates(params, current, end) == Dates(params, start, end)
        decreases end.day - current.day + 1
      {
        ghost var before, today, later := dates, DayBars(params, current), Dates(params, NextDay(current), end);
        assert Dates(params, current, end) == today + later;
        if params.intraday {
          if IsWeekday(current.day) {
            var minutes := SessionOpen;
            while minutes < SessionClose
              invariant dates + SessionBars(current.day, minutes, params.step) == before + today
              decreases SessionClose - minutes
            {
              dates := dates + [Stamp(current.day, minutes, 0)];
              minutes := minutes + params.step;
            }
          }
        } else {
          if IsWeekday(current.day) {
            dates := dates + [current];
          }
        }
        assert dates == before + today;
        ConcatAssoc(before, today, later);
        current := NextDay(current);
      }
    }

    /** `_fetch_live_bar`: the session gate, the weekday gate, then the de-duplication gate. */
    method FetchLiveBar(now: Stamp, quote: Quote) returns (bar: Option<Bar>)
      requires ValidParams(params) && now.Valid()
      modifies this`lastBar, this`lastBarTime
      ensures (State(), bar) == FetchLive(params, old(State()), now, quote)
    {
      var isTradingHours := true;
      if params.sessionStart.Some? && params.sessionEnd.Some? {
        isTradingHours := InSession(now, params.sessionStart.value, params.sessionEnd.value);
      }
      var isWeekday := IsWeekday(now.day);
      if !(isTradingHours && isWeekday) {
        return None;
      }
      var barTime;
      if params.intraday {
        var barMinutes := (now.minute / params.step) * params.step;
        barTime := Stamp(now.day, barMinutes, 0);
      } else {
        barTime := Stamp(now.day, 0, 0);
      }
      if lastBarTime.Some? && Le(barTime, lastBarTime.value) {
        return None;
      }
      var b := Bar(barTime, quote);
      lastBar := Some(b);
      lastBarTime := Some(barTime);
      return Some(b);
    }

    /** `_load_next_live_bar`: append a fetched bar to the live buffer. */
    method LoadNextLiveBar(now: Stamp, quote: Quote) returns (loaded: bool)
      requires ValidParams(params) && now.Valid()
      modifies this`liveBuffer, this`lastBar, this`lastBarTime
      ensures (State(), loaded) == LoadNextLive(params, old(State()), now, quote)
    {
      var bar := FetchLiveBar(now, quote);
      if bar.Some? {
        liveBuffer := liveBuffer + [bar.value];
        return true;
      }
      return false;
    }

    /** `_get_bar`: the current row, or the oldest live bar (polling first when none is buffered). */
    method GetBar(now: Stamp, quote: Quote) returns (bar: Option<Bar>)
      requires started && ValidParams(params) && now.Valid()
      modifies this`liveBuffer, this`lastBar, this`lastBarTime
      ensures (State(), bar) == GetBarSpec(params, old(State()), now, quote)
    {
      if 0 <= idx < |table| {
        return Some(table[idx]);
      }
      if liveBuffer == [] {
        var loaded := LoadNextLiveBar(now, quote);
        if !loaded {
          return None;
        }
      }
      if liveBuffer != [] {
        bar := Some(liveBuffer[0]);
        liveBuffer := liveBuffer[1..];
        return bar;
      }
      return None;
    }

    /** `_next_historical`: move the cursor one row; report whether it is still in the table. */
    method NextHistorical() returns (more: bool)
      requires started
      modifies this`idx
      ensures idx == old(idx) + 1
      ensures more <==> idx < |table|
    {
      idx := idx + 1;
      more := idx < |table|;
    }

    /** `_next_live`: poll for one live bar. */
    method NextLive(now: Stamp, quote: Quote) returns (loaded: bool)
      requires started && ValidParams(params) && now.Valid()
      modifies this`liveBuffer, this`lastBar, this`lastBarTime
      ensures (State(), loaded) == LoadNextLive(params, old(State()), now, quote)
    {
      loaded := LoadNextLiveBar(now, quote);
    }

    /** `next()`: advance through the table, then poll for live bars. */
    method Next(now: Stamp, quote: Quote) returns (advanced: bool)
      requires started && ValidParams(params) && now.Valid()
      modifies this`idx, this`liveBuffer, this`lastBar, this`lastBarTime
      ensures (State(), advanced) == NextSpec(params, old(State()), now, quote)
    {
      if 0 <= idx < |table| - 1 {
        var _ := NextHistorical();
        return true;
      }
      if idx == |table| - 1 {
        idx := idx + 1;
        advanced := NextLive(now, quote);
        return;
      }
      advanced := NextLive(now, quote);
    }
  }
}
