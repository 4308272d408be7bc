/**
 * The feed's parameters and the checks its constructor makes before anything
 * else happens.
 */
module FeedConfig {
  import opened Wrappers
  import opened Calendar
  import opened Timeframe

  /** Why the constructor refuses a configuration (`ValueError` / `IndexError`). */
  datatype ConfigError = MissingApi | MissingSymbol | EmptyTimeframe

  /**
   * The constructor's inputs: whether an API handle was given, the symbol, the
   * timeframe string, the historical range and the session bounds as minutes of
   * the day (`None` where the parameter is unset or empty).
   */
  datatype Config = Config(
    hasApi: bool,
    symbol: Option<string>,
    timeframe: string,
    fromdate: Option<Stamp>,
    todate: Option<Stamp>,
    sessionStart: Option<int>,
    sessionEnd: Option<int>)

  /**
   * What a constructed feed keeps: the intraday flag and the minute step read
   * from the timeframe (0 where the prefix does not parse; such a feed is
   * excluded by ValidParams), the range and the session bounds.
   */
  datatype Params = Params(
    intraday: bool,
    step: int,
    fromdate: Option<Stamp>,
    todate: Option<Stamp>,
    sessionStart: Option<int>,
    sessionEnd: Option<int>)

  /** An intraday feed needs a positive step: with any other the session loops never end. */
  predicate ValidParams(p: Params) {
    p.intraday ==> p.step > 0
  }

  /**
   * The constructor: the API handle is checked first, then the symbol, then the
   * timeframe's last character decides whether the feed is intraday.
   */
  function CheckConfig(c: Config): (r: Result<Params, ConfigError>)
    ensures r == Failure(MissingApi) <==> !c.hasApi
    ensures r == Failure(MissingSymbol) <==> c.hasApi && c.symbol.None?
    ensures r == Failure(EmptyTimeframe) <==> c.hasApi && c.symbol.Some? && c.timeframe == []
    ensures r.Success? ==> c.timeframe != [] && (r.value.intraday <==> c.timeframe[|c.timeframe| - 1] !in "dwm")
    ensures r.Success? ==> r.value.step == if r.value.intraday then StepOf(c.timeframe).GetOr(0) else 0
    ensures r.Success? && r.value.intraday ==> (r.value.step > 0 <==> StepOf(c.timeframe).Some? && StepOf(c.timeframe).value > 0)
    ensures r.Success? ==> r.value.fromdate == c.fromdate && r.value.todate == c.todate
    ensures r.Success? ==> r.value.sessionStart == c.sessionStart && r.value.sessionEnd == c.sessionEnd
  {
    if !c.hasApi then Failure(MissingApi)
    else if c.symbol.None? then Failure(MissingSymbol)
    else if c.timeframe == [] then Failure(EmptyTimeframe)
    else
      var intraday := IsIntraday(c.timeframe);
      var step := if intraday then StepOf(c.timeframe).GetOr(0) else 0;
      Success(Params(intraday, step, c.fromdate, c.todate, c.sessionStart, c.sessionEnd))
  }

  /**
   * A feed built with the timeframe "<n><unit>", unit not d, w or m, is intraday
   * and steps by n minutes: "1h" by one minute, "5h" by five.
   */
  lemma IntradayFeedStep(c: Config, n: nat, unit: char)
    requires c.hasApi && c.symbol.Some?
    requires c.timeframe == Show(n) + [unit] && unit !in "dwm"
    ensures CheckConfig(c).Success?
    ensures CheckConfig(c).value.intraday && CheckConfig(c).value.step == n
  {
    IntradayStep(n, unit);
  }
}
