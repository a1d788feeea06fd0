/**
 * The admin statistics query: optional `from` and `to` timestamps (seconds) are
 * checked in a fixed order before the repository is asked.
 */
module FetchStatsUseCase {
  import opened Wrappers

  /** A JavaScript number: a finite value, or NaN or an infinity (never an integer). */
  datatype JsNumber = Finite(value: real) | NonFinite

  /** `Number.isInteger` */
  predicate IsInteger(x: JsNumber)
  {
    x.Finite? && x.value == x.value.Floor as real
  }

  datatype StatsQuery = StatsQuery(from: Option<JsNumber>, to: Option<JsNumber>)

  datatype Stats = Stats(totalScans: int, uniqueDomains: int, timeoutErrors: int)

  const InvalidFromTimestamp: string := "INVALID_FROM_TIMESTAMP"
  const InvalidToTimestamp: string := "INVALID_TO_TIMESTAMP"
  const InvalidTimeRange: string := "INVALID_TIME_RANGE"
  const TimeRangeTooLarge: string := "TIME_RANGE_TOO_LARGE"

  /** One year in seconds. */
  const MaxRange: real := (365 * 24 * 60 * 60) as real

  /** A given bound that is a non-negative integer. */
  predicate GoodBound(x: JsNumber)
  {
    IsInteger(x) && x.value >= 0.0
  }

  /** `validateQuery`: the code of the first check that fails, or nothing. */
  function ValidateQuery(query: StatsQuery): (r: Option<string>)
    ensures r == Some(InvalidFromTimestamp) <==> query.from.Some? && !GoodBound(query.from.value)
    ensures r == Some(InvalidToTimestamp)
        <==> (query.from.Some? ==> GoodBound(query.from.value)) && query.to.Some? && !GoodBound(query.to.value)
    ensures r == Some(InvalidTimeRange)
        <==> && query.from.Some? && query.to.Some? && GoodBound(query.from.value) && GoodBound(query.to.value)
             && query.from.value.value > query.to.value.value
    ensures r == Some(TimeRangeTooLarge)
        <==> && query.from.Some? && query.to.Some? && GoodBound(query.from.value) && GoodBound(query.to.value)
             && query.from.value.value <= query.to.value.value
             && query.to.value.value - query.from.value.value > MaxRange
    ensures r.None? <==> Accepted(query)
  {
    if query.from.Some? && !GoodBound(query.from.value) then Some(InvalidFromTimestamp)
    else if query.to.Some? && !GoodBound(query.to.value) then Some(InvalidToTimestamp)
    else if query.from.Some? && query.to.Some? && query.from.value.value > query.to.value.value then Some(InvalidTimeRange)
    else if query.from.Some? && query.to.Some? && query.to.value.value - query.from.value.value > MaxRange
    then Some(TimeRangeTooLarge)
    else None
  }

  /**
   * The queries let through, stated independently of the check order: each given
   * bound is a non-negative integer and, when both are given, `from <= to <= from + one year`.
   */
  predicate Accepted(query: StatsQuery)
  {
    && (query.from.Some? ==> GoodBound(query.from.value))
    && (query.to.Some? ==> GoodBound(query.to.value))
    && (query.from.Some? && query.to.Some? ==>
          query.from.value.value <= query.to.value.value <= query.from.value.value + MaxRange)
  }

  /** `execute`: the repository's statistics for an accepted query, unchanged; the error code otherwise. */
  function Execute(query: StatsQuery, fetchStats: StatsQuery -> Stats): (r: Result<Stats, string>)
    ensures r.Ok? <==> Accepted(query)
    ensures r.Ok? ==> r.value == fetchStats(query)
    ensures r.Err? ==> ValidateQuery(query) == Some(r.error)
  {
    match ValidateQuery(query)
    case Some(code) => Err(code)
    case None => Ok(fetchStats(query))
  }

  // ---------------------------------------------------------------- properties

  /** A range of exactly one year is accepted; one second more is too large. */
  lemma OneYearEdge(from: int)
    requires from >= 0
    ensures Accepted(StatsQuery(Some(Finite(from as real)), Some(Finite((from + 31536000) as real))))
    ensures ValidateQuery(StatsQuery(Some(Finite(from as real)), Some(Finite((from + 31536001) as real))))
         == Some(TimeRangeTooLarge)
  {
  }

  /** With a bound missing the pair checks are skipped: any single good bound is accepted. */
  lemma SingleBound(x: JsNumber)
    requires GoodBound(x)
    ensures Accepted(StatsQuery(Some(x), None)) && Accepted(StatsQuery(None, Some(x)))
  {
  }

  /** A bad `from` is reported even when `to` is bad too. */
  lemma FromCheckedFirst(from: JsNumber, to: JsNumber)
    requires !GoodBound(from)
    ensures ValidateQuery(StatsQuery(Some(from), Some(to))) == Some(InvalidFromTimestamp)
  {
  }
}
