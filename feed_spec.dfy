/**
 * The feed's state and what each of its operations does to it, as functions:
 * the live poller's three gates, the FIFO live buffer, `_get_bar` and the
 * cursor `next()`. The class in module Feed is proved to follow these; the
 * lemmas here state what holds over any sequence of calls.
 */
module FeedSpec {
  import opened Wrappers
  import opened Calendar
  import opened FeedConfig
  import opened History

  /**
   * The mutable part of a started feed: the historical table, the cursor `_idx`,
   * the live buffer, `last_bar_time` and `last_bar`.
   */
  datatype FeedState = FeedState(
    table: seq<Bar>,
    idx: int,
    buffer: seq<Bar>,
    lastBarTime: Option<Stamp>,
    lastBar: Option<Bar>)

  /** `s` is strictly later than `t`, or `t` is unset. */
  predicate After(t: Option<Stamp>, s: Stamp) {
    t.None? || Lt(t.value, s)
  }

  /** The cursor points at a row of the table. */
  predicate InTable(st: FeedState) {
    0 <= st.idx < |st.table|
  }

  /** `start()` after a successful connection: load the table, set the cursor to -1. */
  function Started(p: Params, st: FeedState, now: Stamp, quotes: nat -> Quote): (r: FeedState)
    requires ValidParams(p)
    ensures r.idx == -1 && r.buffer == st.buffer && r.lastBar == st.lastBar
    ensures |r.table| == |HistoricalDates(p, now)|
    ensures forall i :: 0 <= i < |r.table| ==> r.table[i] == Bar(HistoricalDates(p, now)[i], quotes(i))
    ensures Chronological(r.table)
    ensures r.lastBarTime == if r.table == [] then st.lastBarTime else Some(r.table[|r.table| - 1].time)
  {
    var dates := HistoricalDates(p, now);
    DatesIncreasing(p, RangeStart(p, now), RangeEnd(p, now));
    var table := Table(dates, quotes);
    FeedState(table, -1, st.buffer, if dates == [] then st.lastBarTime else Some(dates[|dates| - 1]), st.lastBar)
  }

  /** Session gate: `session_start <= now.time() <= session_end`, bounds at whole minutes. */
  predicate InSession(now: Stamp, start: int, end: int) {
    start <= now.minute && (now.minute < end || (now.minute == end && now.micro == 0))
  }

  /** The session is checked only when both bounds are set. */
  predicate TradingHours(p: Params, now: Stamp) {
    if p.sessionStart.Some? && p.sessionEnd.Some? then InSession(now, p.sessionStart.value, p.sessionEnd.value)
    else true
  }

  /** The first two gates: trading hours and Monday to Friday. */
  predicate MarketOpen(p: Params, now: Stamp) {
    TradingHours(p, now) && IsWeekday(now.day)
  }

  /** `(total_minutes // step) * step`: the start of the step-minute slot holding `minute`. */
  function FloorToStep(minute: int, step: int): (r: int)
    requires step > 0
    ensures r % step == 0 && r <= minute < r + step
    ensures minute >= 0 ==> r >= 0
  {
    ModUnique((minute / step) * step, step, minute / step, 0);
    (minute / step) * step
  }

  /** The time of the bar a poll at `now` would produce. */
  function LiveBarTime(p: Params, now: Stamp): (t: Stamp)
    requires ValidParams(p) && now.Valid()
    ensures t.Valid() && Le(t, now) && t.day == now.day && t.micro == 0
    ensures p.intraday ==> t.minute % p.step == 0 && now.minute - p.step < t.minute
    ensures !p.intraday ==> t.minute == 0
  {
    if p.intraday then Stamp(now.day, FloorToStep(now.minute, p.step), 0)
    else Stamp(now.day, 0, 0)
  }

  /**
   * `_fetch_live_bar`: no bar outside the session, on a weekend, or when the
   * slot is not strictly after `last_bar_time`; otherwise the new bar becomes
   * `last_bar` and its time `last_bar_time`. The quote stands for the
   * synthesized prices.
   */
  function FetchLive(p: Params, st: FeedState, now: Stamp, quote: Quote): (r: (FeedState, Option<Bar>))
    requires ValidParams(p) && now.Valid()
    ensures r.1.None? <==> !MarketOpen(p, now) || !After(st.lastBarTime, LiveBarTime(p, now))
    ensures r.1.None? ==> r.0 == st
    ensures r.1.Some? ==> r.1.value == Bar(LiveBarTime(p, now), quote) && After(st.lastBarTime, r.1.value.time)
    ensures r.1.Some? ==> r.0 == st.(lastBar := r.1, lastBarTime := Some(r.1.value.time))
  {
    if !TradingHours(p, now) || !IsWeekday(now.day) then (st, None)
    else
      var barTime := LiveBarTime(p, now);
      if st.lastBarTime.Some? && Le(barTime, st.lastBarTime.value) then (st, None)
      else
        var bar := Bar(barTime, quote);
        (st.(lastBar := Some(bar), lastBarTime := Some(barTime)), Some(bar))
  }

  /** `_load_next_live_bar`: a fetched bar is appended to the live buffer. */
  function LoadNextLive(p: Params, st: FeedState, now: Stamp, quote: Quote): (r: (FeedState, bool))
    requires ValidParams(p) && now.Valid()
    ensures r.1 <==> MarketOpen(p, now) && After(st.lastBarTime, LiveBarTime(p, now))
    ensures r.1 ==> r.0 == st.(buffer := st.buffer + [Bar(LiveBarTime(p, now), quote)],
                              lastBar := Some(Bar(LiveBarTime(p, now), quote)),
                              lastBarTime := Some(LiveBarTime(p, now)))
    ensures !r.1 ==> r.0 == st
  {
    var (st1, bar) := FetchLive(p, st, now, quote);
    if bar.Some? then (st1.(buffer := st1.buffer + [bar.value]), true) else (st1, false)
  }

  /**
   * `next()`: inside the table the cursor moves one row; at the last row it
   * moves past the table and polls; anywhere else it only polls. With the
   * cursor at -1 and a non-empty table neither cursor branch applies.
   */
  function NextSpec(p: Params, st: FeedState, now: Stamp, quote: Quote): (r: (FeedState, bool))
    requires ValidParams(p) && now.Valid()
    ensures r.0.table == st.table && r.0.idx >= st.idx
    ensures 0 <= st.idx < |st.table| - 1 ==> r == (st.(idx := st.idx + 1), true)
    ensures st.idx == |st.table| - 1 ==> r.0.idx == |st.table|
    ensures !(0 <= st.idx < |st.table| - 1) && st.idx != |st.table| - 1 ==> r.0.idx == st.idx
    ensures !(0 <= st.idx < |st.table| - 1) ==>
      (r.1 <==> MarketOpen(p, now) && After(st.lastBarTime, LiveBarTime(p, now))) &&
      r.0.buffer == (if r.1 then st.buffer + [Bar(LiveBarTime(p, now), quote)] else st.buffer)
    ensures !(0 <= st.idx < |st.table| - 1) ==> r == LoadNextLive(p, st.(idx := r.0.idx), now, quote)
  {
    if 0 <= st.idx < |st.table| - 1 then
      (st.(idx := st.idx + 1), true)
    else if st.idx == |st.table| - 1 then
      LoadNextLive(p, st.(idx := st.idx + 1), now, quote)
    else
      LoadNextLive(p, st, now, quote)
  }

  /**
   * `_get_bar`: the current row while the cursor is in the table (nothing
   * changes); otherwise the oldest buffered bar, removed from the buffer, after
   * polling once if the buffer is empty.
   */
  function GetBarSpec(p: Params, st: FeedState, now: Stamp, quote: Quote): (r: (FeedState, Option<Bar>))
    requires ValidParams(p) && now.Valid()
    ensures InTable(st) ==> r == (st, Some(st.table[st.idx]))
    ensures !InTable(st) && st.buffer != [] ==> r == (st.(buffer := st.buffer[1..]), Some(st.buffer[0]))
    ensures !InTable(st) && st.buffer == [] ==>
      (r.1.None? <==> !MarketOpen(p, now) || !After(st.lastBarTime, LiveBarTime(p, now))) &&
      (r.1.None? ==> r.0 == st) &&
      (r.1.Some? ==> r == FetchLive(p, st, now, quote))
  {
    if InTable(st) then (st, Some(st.table[st.idx]))
    else
      var (st1, ready) := if st.buffer == [] then LoadNextLive(p, st, now, quote) else (st, true);
      if !ready then (st1, None)
      else if st1.buffer != [] then
        assert st.buffer == [] ==> st1.buffer[1..] == [];
        (st1.(buffer := st1.buffer[1..]), Some(st1.buffer[0]))
      else (st1, None)
  }

  /**
   * `haslivedata()`: a bar is buffered or the cursor is past the table. With
   * the cursor still at -1 (where it stays over a non-empty table) only a
   * buffered bar counts.
   */
  function HasLiveData(st: FeedState): (r: bool)
    ensures r <==> st.buffer != [] || (st.idx >= 0 && !InTable(st))
    ensures st.idx == -1 ==> (r <==> st.buffer != [])
  {
    st.buffer != [] || st.idx >= |st.table|
  }

  // ----- Any sequence of calls -----

  /** A call the consumer makes: `next()` or `_get_bar()`, each at some instant and with some quote. */
  datatype Call = Advance(now: Stamp, quote: Quote) | Fetch(now: Stamp, quote: Quote)

  predicate ValidCalls(calls: seq<Call>) {
    forall i :: 0 <= i < |calls| ==> calls[i].now.Valid()
  }

  /** The state after one call. */
  function Apply(p: Params, st: FeedState, c: Call): FeedState
    requires ValidParams(p) && c.now.Valid()
  {
    match c
    case Advance(now, quote) => NextSpec(p, st, now, quote).0
    case Fetch(now, quote) => GetBarSpec(p, st, now, quote).0
  }

  /** The state after a sequence of calls. */
  function Run(p: Params, st: FeedState, calls: seq<Call>): FeedState
    requires ValidParams(p) && ValidCalls(calls)
    decreases |calls|
  {
    if calls == [] then st else Run(p, Apply(p, st, calls[0]), calls[1..])
  }

  /** The live bars `_get_bar` hands out during a sequence of calls, in order. */
  function LiveDeliveries(p: Params, st: FeedState, calls: seq<Call>): seq<Bar>
    requires ValidParams(p) && ValidCalls(calls)
    decreases |calls|
  {
    if calls == [] then []
    else
      var c := calls[0];
      var delivered := match c
        case Advance(_, _) => []
        case Fetch(now, quote) =>
          var bar := GetBarSpec(p, st, now, quote).1;
          if !InTable(st) && bar.Some? then [bar.value] else [];
      delivered + LiveDeliveries(p, Apply(p, st, c), calls[1..])
  }

  /** The live bars the poller produces during a sequence of calls, in order. */
  function Polled(p: Params, st: FeedState, calls: seq<Call>): seq<Bar>
    requires ValidParams(p) && ValidCalls(calls)
    decreases |calls|
  {
    if calls == [] then []
    else
      var c := calls[0];
      var produced := match c
        case Advance(now, quote) =>
          if !(0 <= st.idx < |st.table| - 1) && NextSpec(p, st, now, quote).1 then [Bar(LiveBarTime(p, now), quote)] else []
        case Fetch(now, quote) =>
          var bar := GetBarSpec(p, st, now, quote).1;
          if !InTable(st) && st.buffer == [] && bar.Some? then [bar.value] else [];
      produced + Polled(p, Apply(p, st, c), calls[1..])
  }

  /**
   * The live buffer is first in, first out: the bars buffered before, followed
   * by the bars polled since, are exactly the bars handed out followed by the
   * bars still buffered. None is lost, duplicated or reordered.
   */
  lemma {:induction false} LiveBufferIsFifo(p: Params, st: FeedState, calls: seq<Call>)
    requires ValidParams(p) && ValidCalls(calls)
    ensures st.buffer + Polled(p, st, calls) == LiveDeliveries(p, st, calls) + Run(p, st, calls).buffer
    decreases |calls|
  {
    if calls != [] {
      ValidCallsTail(calls);
      var c := calls[0];
      var st' := Apply(p, st, c);
      LiveBufferIsFifo(p, st', calls[1..]);
      var polledRest, deliveredRest := Polled(p, st', calls[1..]), LiveDeliveries(p, st', calls[1..]);
      var produced := Polled(p, st, calls)[..|Polled(p, st, calls)| - |polledRest|];
      var delivered := LiveDeliveries(p, st, calls)[..|LiveDeliveries(p, st, calls)| - |deliveredRest|];
      assert Polled(p, st, calls) == produced + polledRest;
      assert LiveDeliveries(p, st, calls) == delivered + deliveredRest;
      // one call: what was buffered plus what it polled is what it handed out plus what stays buffered
      assert st.buffer + produced == delivered + st'.buffer;
      calc {
        st.buffer + Polled(p, st, calls);
        st.buffer + (produced + polledRest);
        { ConcatAssoc(st.buffer, produced, polledRest); }
        (st.buffer + produced) + polledRest;
        (delivered + st'.buffer) + polledRest;
        { ConcatAssoc(delivered, st'.buffer, polledRest); }
        delivered + (st'.buffer + polledRest);
        delivered + (deliveredRest + Run(p, st', calls[1..]).buffer);
        { ConcatAssoc(delivered, deliveredRest, Run(p, st', calls[1..]).buffer); }
        (delivered + deliveredRest) + Run(p, st', calls[1..]).buffer;
      }
    }
  }

  /**
   * Buffered bars are in time order and the newest of them is `last_bar_time`
   * (true after `start()`, when the buffer is empty).
   */
  predicate BufferChronological(st: FeedState) {
    Chronological(st.buffer) &&
    (st.buffer != [] ==> st.lastBarTime == Some(st.buffer[|st.buffer| - 1].time))
  }

  /** Every buffered bar, and `last_bar_time`, are after the floor `f`. */
  predicate AboveFloor(st: FeedState, f: Option<Stamp>) {
    (forall b :: b in st.buffer ==> After(f, b.time)) &&
    (f.Some? ==> st.lastBarTime.Some? && Le(f.value, st.lastBarTime.value))
  }

  lemma AdvanceKeepsOrder(p: Params, st: FeedState, now: Stamp, quote: Quote, f: Option<Stamp>)
    requires ValidParams(p) && now.Valid()
    requires BufferChronological(st) && AboveFloor(st, f)
    ensures BufferChronological(NextSpec(p, st, now, quote).0)
    ensures AboveFloor(NextSpec(p, st, now, quote).0, f)
  {
    var (st', ok) := NextSpec(p, st, now, quote);
    ChronologicalIff(st.buffer);
    ChronologicalIff(st'.buffer);
    if !(0 <= st.idx < |st.table| - 1) && ok {
      var b := Bar(LiveBarTime(p, now), quote);
      assert st'.buffer == st.buffer + [b];
      assert st'.lastBarTime == Some(b.time);
      forall x | x in st.buffer ensures Lt(x.time, b.time) {
        var i :| 0 <= i < |st.buffer| && st.buffer[i] == x;
        assert i == |st.buffer| - 1 || Lt(x.time, st.buffer[|st.buffer| - 1].time);
      }
    }
  }

  lemma FetchKeepsOrder(p: Params, st: FeedState, now: Stamp, quote: Quote, f: Option<Stamp>)
    requires ValidParams(p) && now.Valid()
    requires BufferChronological(st) && AboveFloor(st, f)
    ensures var (st', bar) := GetBarSpec(p, st, now, quote);
      BufferChronological(st') &&
      if !InTable(st) && bar.Some? then After(f, bar.value.time) && AboveFloor(st', Some(bar.value.time))
      else AboveFloor(st', f)
  {
    var (st', bar) := GetBarSpec(p, st, now, quote);
    ChronologicalIff(st.buffer);
    ChronologicalIff(st'.buffer);
    if !InTable(st) && st.buffer != [] {
      var b := st.buffer[0];
      assert b in st.buffer;
      forall x | x in st'.buffer ensures Lt(b.time, x.time) {
        var i :| 0 <= i < |st'.buffer| && st'.buffer[i] == x;
        assert st.buffer[i + 1] == x;
      }
      if st'.buffer != [] {
        assert st'.buffer[|st'.buffer| - 1] == st.buffer[|st.buffer| - 1];
      }
      assert Le(b.time, st.buffer[|st.buffer| - 1].time);
    }
  }

  /**
   * The live bars `_get_bar` hands out are strictly increasing in time and all
   * after the floor, for any sequence of `next()` and `_get_bar()` calls.
   */
  lemma {:induction false} LiveDeliveriesAboveFloor(p: Params, st: FeedState, calls: seq<Call>, f: Option<Stamp>)
    requires ValidParams(p) && ValidCalls(calls)
    requires BufferChronological(st) && AboveFloor(st, f)
    ensures Chronological(LiveDeliveries(p, st, calls))
    ensures forall b :: b in LiveDeliveries(p, st, calls) ==> After(f, b.time)
    decreases |calls|
  {
    if calls != [] {
      var c := calls[0];
      var rest := LiveDeliveries(p, Apply(p, st, c), calls[1..]);
      ValidCallsTail(calls);
      match c
      case Advance(now, quote) =>
        AdvanceKeepsOrder(p, st, now, quote, f);
        LiveDeliveriesAboveFloor(p, Apply(p, st, c), calls[1..], f);
        assert LiveDeliveries(p, st, calls) == rest;
      case Fetch(now, quote) =>
        FetchKeepsOrder(p, st, now, quote, f);
        var bar := GetBarSpec(p, st, now, quote).1;
        if !InTable(st) && bar.Some? {
          LiveDeliveriesAboveFloor(p, Apply(p, st, c), calls[1..], Some(bar.value.time));
          TimesConcat([bar.value], rest);
          ConcatIncreasing(Times([bar.value]), Times(rest));
        } else {
          LiveDeliveriesAboveFloor(p, Apply(p, st, c), calls[1..], f);
          assert LiveDeliveries(p, st, calls) == rest;
        }
    }
  }

  /**
   * After `start()` (empty buffer) the live bars handed out are strictly
   * increasing and later than `last_bar_time`, the last historical bar's time.
   */
  lemma LiveBarsFollowHistory(p: Params, st: FeedState, calls: seq<Call>)
    requires ValidParams(p) && ValidCalls(calls)
    requires st.buffer == []
    ensures Chronological(LiveDeliveries(p, st, calls))
    ensures forall b :: b in LiveDeliveries(p, st, calls) ==> After(st.lastBarTime, b.time)
  {
    LiveDeliveriesAboveFloor(p, st, calls, st.lastBarTime);
  }

  lemma ValidCallsTail(calls: seq<Call>)
    requires ValidCalls(calls) && calls != []
    ensures ValidCalls(calls[1..])
  {
    forall i | 0 <= i < |calls[1..]| ensures calls[1..][i].now.Valid() {
      assert calls[1..][i] == calls[i + 1];
    }
  }

  /**
   * Over any sequence of calls the table is untouched and the cursor never
   * moves back; once past the table it never moves again (live mode is final).
   * With the cursor at -1 and a non-empty table it never moves at all.
   */
  lemma {:induction false} CursorMonotone(p: Params, st: FeedState, calls: seq<Call>)
    requires ValidParams(p) && ValidCalls(calls)
    ensures Run(p, st, calls).table == st.table
    ensures Run(p, st, calls).idx >= st.idx
    ensures st.idx >= |st.table| ==> Run(p, st, calls).idx == st.idx
    ensures st.idx == -1 && st.table != [] ==> Run(p, st, calls).idx == -1
    decreases |calls|
  {
    if calls != [] {
      ValidCallsTail(calls);
      var st' := Apply(p, st, calls[0]);
      assert st'.table == st.table && st'.idx >= st.idx;
      assert st.idx >= |st.table| ==> st'.idx == st.idx;
      assert st.idx == -1 && st.table != [] ==> st'.idx == -1;
      CursorMonotone(p, st', calls[1..]);
    }
  }

  /** Once the cursor is past the table, `haslivedata()` holds after any sequence of calls. */
  lemma LiveDataOncePastTable(p: Params, st: FeedState, calls: seq<Call>)
    requires ValidParams(p) && ValidCalls(calls)
    requires st.idx >= |st.table|
    ensures HasLiveData(Run(p, st, calls))
  {
    CursorMonotone(p, st, calls);
  }

  /** Every call is a `next()` at an instant outside the session or on a weekend. */
  predicate PolledWhileClosed(p: Params, calls: seq<Call>) {
    forall i :: 0 <= i < |calls| ==> calls[i].Advance? && !MarketOpen(p, calls[i].now)
  }

  /**
   * However often `next()` is called outside the session or on a weekend, no
   * bar is buffered and neither `last_bar` nor `last_bar_time` changes.
   */
  lemma {:induction false} ClosedMarketIsIdle(p: Params, st: FeedState, calls: seq<Call>)
    requires ValidParams(p) && ValidCalls(calls) && PolledWhileClosed(p, calls)
    ensures Run(p, st, calls).buffer == st.buffer
    ensures Run(p, st, calls).lastBarTime == st.lastBarTime
    ensures Run(p, st, calls).lastBar == st.lastBar
    decreases |calls|
  {
    if calls != [] {
      ValidCallsTail(calls);
      assert PolledWhileClosed(p, calls[1..]) by {
        forall i | 0 <= i < |calls[1..]| ensures calls[1..][i] == calls[i + 1] { }
      }
      ClosedMarketIsIdle(p, Apply(p, st, calls[0]), calls[1..]);
    }
  }
}
