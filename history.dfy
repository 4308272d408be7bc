/**
 * The historical table built when the feed starts: one timestamp per weekday
 * for a daily feed, a grid of session minutes per weekday for an intraday feed.
 * Prices are random in the feed and enter the model as given quotes.
 */
module History {
  import opened Wrappers
  import opened Calendar
  import opened FeedConfig

  /** 9:30 and 16:00 as minutes of the day: the loader's fixed intraday session. */
  const SessionOpen := 9 * 60 + 30
  const SessionClose := 16 * 60

  /** The range start when no `fromdate` is given: thirty days before now. */
  const DefaultLookbackDays := 30

  /** Open, high, low, close, volume and open interest of one bar, taken as given. */
  datatype Quote = Quote(open: real, high: real, low: real, close: real, volume: real, openInterest: real)

  datatype Bar = Bar(time: Stamp, quote: Quote)

  function RangeStart(p: Params, now: Stamp): Stamp {
    p.fromdate.GetOr(Stamp(now.day - DefaultLookbackDays, now.minute, now.micro))
  }

  function RangeEnd(p: Params, now: Stamp): Stamp {
    p.todate.GetOr(now)
  }

  /** The session minutes `m`, `m + step`, ... below the close, on day `day`. */
  function SessionBars(day: int, m: int, step: int): seq<Stamp>
    requires step > 0
    decreases SessionClose - m
  {
    if m < SessionClose then [Stamp(day, m, 0)] + SessionBars(day, m + step, step) else []
  }

  /** The timestamps one day of the walk contributes; weekends contribute none. */
  function DayBars(p: Params, cur: Stamp): seq<Stamp>
    requires ValidParams(p)
  {
    if !IsWeekday(cur.day) then []
    else if p.intraday then SessionBars(cur.day, SessionOpen, p.step)
    else [cur]
  }

  /** The day walk from `cur` while it is not later than `end`. */
  function Dates(p: Params, cur: Stamp, end: Stamp): seq<Stamp>
    requires ValidParams(p)
    decreases end.day - cur.day + 1
  {
    if Le(cur, end) then DayBars(p, cur) + Dates(p, NextDay(cur), end) else []
  }

  /** The timestamps of the table loaded at `now`. */
  function HistoricalDates(p: Params, now: Stamp): seq<Stamp>
    requires ValidParams(p)
  {
    Dates(p, RangeStart(p, now), RangeEnd(p, now))
  }

  /** The times of a sequence of bars. */
  function Times(bars: seq<Bar>): seq<Stamp> {
    seq(|bars|, i requires 0 <= i < |bars| => bars[i].time)
  }

  /** The bars' times are strictly increasing. */
  predicate Chronological(bars: seq<Bar>) {
    StrictlyIncreasing(Times(bars))
  }

  /** Chronological order, pair by pair. */
  lemma ChronologicalIff(bars: seq<Bar>)
    ensures Chronological(bars) <==> forall i, j :: 0 <= i < j < |bars| ==> Lt(bars[i].time, bars[j].time)
  {
    assert forall i :: 0 <= i < |bars| ==> Times(bars)[i] == bars[i].time;
  }

  lemma TimesConcat(a: seq<Bar>, b: seq<Bar>)
    ensures Times(a + b) == Times(a) + Times(b)
  {
  }

  /**
   * The table: row `i` pairs the `i`-th timestamp with the `i`-th generated
   * quote, so the table is in time order whenever the timestamps are.
   */
  function Table(dates: seq<Stamp>, quotes: nat -> Quote): (t: seq<Bar>)
    ensures Times(t) == dates
    ensures StrictlyIncreasing(dates) ==> Chronological(t)
  {
    seq(|dates|, i requires 0 <= i < |dates| => Bar(dates[i], quotes(i)))
  }

  /** Day `d` is visited by the walk from `start` to `end` (same clock time each day). */
  predicate DayInRange(d: int, start: Stamp, end: Stamp) {
    start.day <= d && Le(Stamp(d, start.minute, start.micro), end)
  }

  /** Minute `m` is one of 9:30, 9:30 + step, ... before 16:00. */
  predicate OnSessionGrid(m: int, step: int)
    requires step > 0
  {
    SessionOpen <= m < SessionClose && (m - SessionOpen) % step == 0
  }

  /** Exactly the timestamps the walk from `start` to `end` produces. */
  predicate IsHistoricalStamp(p: Params, start: Stamp, end: Stamp, s: Stamp)
    requires ValidParams(p)
  {
    DayInRange(s.day, start, end) && IsWeekday(s.day) &&
    if p.intraday then s.micro == 0 && OnSessionGrid(s.minute, p.step)
    else s.minute == start.minute && s.micro == start.micro
  }

  lemma {:induction false} MulAtLeast(k: int, step: int)
    requires k >= 1 && step > 0
    ensures k * step >= step
  {
    if k > 1 {
      MulAtLeast(k - 1, step);
      assert k * step == (k - 1) * step + step;
    }
  }

  lemma ModUnique(a: int, step: int, q: int, r: int)
    requires step > 0 && 0 <= r < step && a == q * step + r
    ensures a % step == r
  {
    var q', r' := a / step, a % step;
    assert a == q' * step + r';
    assert (q - q') * step == q * step - q' * step;
    if q > q' {
      MulAtLeast(q - q', step);
    } else if q < q' {
      assert (q' - q) * step == q' * step - q * step;
      MulAtLeast(q' - q, step);
    }
  }

  lemma ModShift(a: int, step: int)
    requires step > 0
    ensures (a + step) % step == a % step
  {
    ModUnique(a + step, step, a / step + 1, a % step);
  }

  lemma {:induction false} SessionBarsMembership(day: int, m: int, step: int, s: Stamp)
    requires step > 0
    ensures s in SessionBars(day, m, step) <==>
      s.day == day && s.micro == 0 && m <= s.minute < SessionClose && (s.minute - m) % step == 0
    decreases SessionClose - m
  {
    if m < SessionClose {
      SessionBarsMembership(day, m + step, step, s);
      ModShift(s.minute - m - step, step);
      if m < s.minute < m + step {
        ModUnique(s.minute - m, step, 0, s.minute - m);
      }
    }
  }

  lemma {:induction false} SessionBarsIncreasing(day: int, m: int, step: int)
    requires step > 0
    ensures StrictlyIncreasing(SessionBars(day, m, step))
    decreases SessionClose - m
  {
    if m < SessionClose {
      SessionBarsIncreasing(day, m + step, step);
      var rest := SessionBars(day, m + step, step);
      forall s | s in rest ensures Lt(Stamp(day, m, 0), s) {
        SessionBarsMembership(day, m + step, step, s);
      }
      ConcatIncreasing([Stamp(day, m, 0)], rest);
    }
  }

  lemma ConcatIncreasing(a: seq<Stamp>, b: seq<Stamp>)
    requires StrictlyIncreasing(a) && StrictlyIncreasing(b)
    requires forall x, y :: x in a && y in b ==> Lt(x, y)
    ensures StrictlyIncreasing(a + b)
  {
    forall i, j | 0 <= i < j < |a + b| ensures Lt((a + b)[i], (a + b)[j]) {
      if j < |a| {
      } else if i >= |a| {
        assert (a + b)[i] == b[i - |a|] && (a + b)[j] == b[j - |a|];
      } else {
        assert (a + b)[i] == a[i] && (a + b)[j] == b[j - |a|];
      }
    }
  }

  /**
   * Associativity of concatenation. Dafny knows it, but naming the instance
   * keeps the loader's loop and the buffer proof within the solver's budget.
   */
  lemma ConcatAssoc<T>(a: seq<T>, b: seq<T>, c: seq<T>)
    ensures (a + b) + c == a + (b + c)
  {
  }

  /** What one day contributes: only its own weekday timestamps, on the session grid when intraday. */
  lemma DayBarsMembership(p: Params, cur: Stamp, s: Stamp)
    requires ValidParams(p)
    ensures s in DayBars(p, cur) <==> (s.day == cur.day && IsWeekday(s.day) &&
      if p.intraday then s.micro == 0 && OnSessionGrid(s.minute, p.step)
      else s.minute == cur.minute && s.micro == cur.micro)
  {
    if p.intraday {
      SessionBarsMembership(cur.day, SessionOpen, p.step, s);
    }
  }

  /**
   * The loader produces exactly the weekdays of the range: for a daily feed each
   * at the start's clock time, for an intraday feed each minute of the session grid.
   */
  lemma {:induction false} DatesMembership(p: Params, cur: Stamp, end: Stamp, s: Stamp)
    requires ValidParams(p)
    ensures s in Dates(p, cur, end) <==> IsHistoricalStamp(p, cur, end, s)
    decreases end.day - cur.day + 1
  {
    if Le(cur, end) {
      DayBarsMembership(p, cur, s);
      DatesMembership(p, NextDay(cur), end, s);
    }
  }

  /** The loader's timestamps are strictly increasing. */
  lemma {:induction false} DatesIncreasing(p: Params, cur: Stamp, end: Stamp)
    requires ValidParams(p)
    ensures StrictlyIncreasing(Dates(p, cur, end))
    decreases end.day - cur.day + 1
  {
    if Le(cur, end) {
      DatesIncreasing(p, NextDay(cur), end);
      var today, rest := DayBars(p, cur), Dates(p, NextDay(cur), end);
      if p.intraday {
        SessionBarsIncreasing(cur.day, SessionOpen, p.step);
      }
      forall x, y | x in today && y in rest ensures Lt(x, y) {
        DayBarsMembership(p, cur, x);
        DatesMembership(p, NextDay(cur), end, y);
      }
      ConcatIncreasing(today, rest);
    }
  }

  /** The table is empty exactly when the range holds no weekday. */
  lemma DatesEmptyIff(p: Params, start: Stamp, end: Stamp)
    requires ValidParams(p)
    ensures Dates(p, start, end) == [] <==> !exists d :: DayInRange(d, start, end) && IsWeekday(d)
  {
    var dates := Dates(p, start, end);
    if dates != [] {
      DatesMembership(p, start, end, dates[0]);
    }
    if d :| DayInRange(d, start, end) && IsWeekday(d) {
      var s := if p.intraday then Stamp(d, SessionOpen, 0) else Stamp(d, start.minute, start.micro);
      DatesMembership(p, start, end, s);
    }
  }

  /** A range whose start is later than its end gives an empty table, not an error. */
  lemma EmptyRange(p: Params, start: Stamp, end: Stamp)
    requires ValidParams(p)
    requires Lt(end, start)
    ensures Dates(p, start, end) == []
  {
  }
}
