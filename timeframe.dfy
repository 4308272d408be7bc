/**
 * Timeframe strings such as "1d", "5m" or "1h": the last character is the unit,
 * everything before it is read as a number of minutes by the intraday code paths
 * (`int(timeframe[:-1])`), whatever the unit says.
 */
module Timeframe {
  import opened Wrappers

  /** `timeframe[-1] not in ('d', 'w', 'm')`: so "5m" counts as daily and "1h" as intraday. */
  predicate IsIntraday(tf: string)
    requires |tf| > 0
  {
    tf[|tf| - 1] !in "dwm"
  }

  predicate IsDigit(c: char) {
    '0' <= c <= '9'
  }

  predicate AllDigits(s: string) {
    forall i :: 0 <= i < |s| ==> IsDigit(s[i])
  }

  /** The value of a string of decimal digits, most significant first. */
  function DigitsValue(s: string): nat
    requires AllDigits(s)
  {
    if s == [] then 0 else DigitsValue(s[..|s| - 1]) * 10 + (s[|s| - 1] as int - '0' as int)
  }

  /**
   * Python's `int(s)` on an optional sign followed by one or more decimal digits;
   * `None` where Python raises `ValueError`.
   */
  function ParseInt(s: string): (r: Option<int>)
    ensures r.Some? <==> |s| > 0 && (AllDigits(s) || (s[0] in "+-" && |s| > 1 && AllDigits(s[1..])))
    ensures AllDigits(s) && |s| > 0 ==> r == Some(DigitsValue(s))
    ensures |s| > 1 && s[0] in "+-" && AllDigits(s[1..]) ==>
      r == Some(if s[0] == '-' then -(DigitsValue(s[1..]) as int) else DigitsValue(s[1..]))
  {
    if |s| > 0 && (s[0] == '+' || s[0] == '-') then
      var digits := s[1..];
      if |digits| > 0 && AllDigits(digits) then
        Some(if s[0] == '-' then -(DigitsValue(digits) as int) else DigitsValue(digits))
      else None
    else if |s| > 0 && AllDigits(s) then Some(DigitsValue(s))
    else None
  }

  /** The step in minutes that the intraday paths read from a timeframe (`int(timeframe[:-1])`). */
  function StepOf(tf: string): Option<int>
    requires |tf| > 0
  {
    ParseInt(tf[..|tf| - 1])
  }

  /** Decimal rendering of a natural number: the reference the parser is checked against. */
  function Show(n: nat): (s: string)
    ensures |s| > 0 && AllDigits(s)
  {
    if n < 10 then [('0' as int + n) as char] else Show(n / 10) + [('0' as int + n % 10) as char]
  }

  lemma {:induction false} DigitsValueShow(n: nat)
    ensures DigitsValue(Show(n)) == n
  {
    if n >= 10 {
      DigitsValueShow(n / 10);
      var s := Show(n);
      assert s[..|s| - 1] == Show(n / 10);
    }
  }

  /** Parsing undoes rendering, with and without a minus sign. */
  lemma ParseShow(n: nat)
    ensures ParseInt(Show(n)) == Some(n)
    ensures ParseInt("-" + Show(n)) == Some(-(n as int))
  {
    DigitsValueShow(n);
    assert ("-" + Show(n))[1..] == Show(n);
  }

  /**
   * Any timeframe "<n><unit>" whose unit is not d, w or m is intraday and steps by
   * n minutes: "1h" steps by one minute, "15" (unit '5') by one minute too.
   */
  lemma IntradayStep(n: nat, unit: char)
    requires unit !in "dwm"
    ensures IsIntraday(Show(n) + [unit])
    ensures StepOf(Show(n) + [unit]) == Some(n)
  {
    var tf := Show(n) + [unit];
    assert tf[..|tf| - 1] == Show(n);
    ParseShow(n);
  }

  /** The unit characters d, w and m make a timeframe daily whatever the number: "1m" and "5m" are daily. */
  lemma DailyUnits(n: nat, unit: char)
    requires unit in "dwm"
    ensures !IsIntraday(Show(n) + [unit])
  {
  }
}
