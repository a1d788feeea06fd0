/**
 * The query parsing of `GET /reports`: the `limit`, `cursor` and `sort` query
 * parameters become a query model, or a 400 response.
 */
module ReportsController {
  import opened Wrappers
  import opened Strings
  import opened FetchReportsUseCase

  /** A JSON error response with its HTTP status. */
  datatype ErrorReply = ErrorReply(status: int, error: string, code: string)

  const InvalidLimit: ErrorReply := ErrorReply(400, "Invalid limit parameter", "INVALID_PARAMETERS")
  const InvalidSort: ErrorReply := ErrorReply(400, "Invalid sort parameter", "INVALID_PARAMETERS")
  const DefaultLimit: int := 20

  /**
   * `parseInt(s, 10)`: leading white space is skipped, one optional sign is read,
   * then the longest run of digits; without a digit the result is NaN (`None`).
   */
  function ParseInt(s: string): (r: Option<int>)
    ensures r.Some? <==> |LeadingDigits(Unsigned(TrimStart(s)))| > 0
  {
    var t := TrimStart(s);
    var digits := LeadingDigits(Unsigned(t));
    if |digits| == 0 then None
    else
      var magnitude: int := DigitsValue(digits);
      if |t| > 0 && t[0] == '-' then Some(-magnitude) else Some(magnitude)
  }

  /** What follows one leading `+` or `-`. */
  function Unsigned(t: string): string
  {
    if |t| > 0 && (t[0] == '+' || t[0] == '-') then t[1..] else t
  }

  /** The accepted `limit`: an absent or empty parameter gives 20; otherwise `parseInt`'s value, within 1..100. */
  function ParseLimit(limitParam: Option<string>): (r: Result<int, ErrorReply>)
    ensures r.Ok? ==> 1 <= r.value <= 100
    ensures r.Err? ==> r.error == InvalidLimit
    ensures (limitParam.None? || limitParam.value == "") ==> r == Ok(DefaultLimit)
    ensures limitParam.Some? && limitParam.value != "" ==>
              (r.Ok? <==> ParseInt(limitParam.value).Some? && 1 <= ParseInt(limitParam.value).value <= 100)
    ensures limitParam.Some? && limitParam.value != "" && r.Ok? ==> r.value == ParseInt(limitParam.value).value
  {
    match limitParam
    case Some(text) =>
      if text == "" then Ok(DefaultLimit)
      else
        (match ParseInt(text)
         case None => Err(InvalidLimit)
         case Some(n) => if n < 1 || n > 100 then Err(InvalidLimit) else Ok(n))
    case None => Ok(DefaultLimit)
  }

  function FieldNamed(name: string): Option<SortField>
  {
    if name == "created_at" then Some(CreatedAt) else if name == "score" then Some(Score) else None
  }

  /** `sort`: `-field` sorts descending, a bare field ascending; absent or empty means `created_at`. */
  function ParseSort(sortParam: Option<string>): (r: Result<(SortField, SortDirection), ErrorReply>)
    ensures r.Err? ==> r.error == InvalidSort
    ensures r.Ok? <==>
              var sort := if sortParam.None? || sortParam.value == "" then "created_at" else sortParam.value;
              sort == "created_at" || sort == "score" || sort == "-created_at" || sort == "-score"
  {
    var sort := if sortParam.None? || sortParam.value == "" then "created_at" else sortParam.value;
    if "-" <= sort then
      assert sort[0] == '-' && "created_at"[0] == 'c' && "score"[0] == 's';
      assert sort == "-created_at" ==> sort[1..] == "created_at";
      assert sort == "-score" ==> sort[1..] == "score";
      (match FieldNamed(sort[1..])
       case Some(field) => Ok((field, Desc))
       case None => Err(InvalidSort))
    else
      match FieldNamed(sort)
      case Some(field) => Ok((field, Asc))
      case None => Err(InvalidSort)
  }

  /** The query model `handleFetchReports` builds, or the 400 reply it returns first. */
  function ParseQuery(limitParam: Option<string>, cursor: Option<string>, sortParam: Option<string>)
    : (r: Result<FetchReportsQuery, ErrorReply>)
    ensures r.Ok? <==> ParseLimit(limitParam).Ok? && ParseSort(sortParam).Ok?
    ensures ParseLimit(limitParam).Err? ==> r == Err(InvalidLimit)
    ensures r.Err? ==> r.error.status == 400 && r.error.code == "INVALID_PARAMETERS"
    ensures r.Ok? ==> && r.value.limit == ParseLimit(limitParam).value
                      && r.value.cursor == cursor
                      && (r.value.sortField, r.value.sortDirection) == ParseSort(sortParam).value
  {
    match ParseLimit(limitParam)
    case Err(e) => Err(e)
    case Ok(limit) =>
      (match ParseSort(sortParam)
       case Err(e) => Err(e)
       case Ok(order) => Ok(FetchReportsQuery(limit, cursor, order.0, order.1)))
  }

  // ---------------------------------------------------------------- properties

  /** No parameters: 20 reports, newest-last order (created_at ascending), no cursor. */
  lemma DefaultQuery()
    ensures ParseQuery(None, None, None) == Ok(FetchReportsQuery(20, None, CreatedAt, Asc))
  {
  }

  /** The sort table: the four accepted spellings. */
  lemma SortTable()
    ensures ParseSort(Some("created_at")) == Ok((CreatedAt, Asc))
    ensures ParseSort(Some("score")) == Ok((Score, Asc))
    ensures ParseSort(Some("-created_at")) == Ok((CreatedAt, Desc))
    ensures ParseSort(Some("-score")) == Ok((Score, Desc))
  {
    assert "-created_at"[1..] == "created_at";
    assert "-score"[1..] == "score";
  }

  /** `parseInt` reads the digits in front and ignores the rest: `"50x"` is 50. */
  lemma TrailingGarbageIgnored()
    ensures ParseInt("50x") == Some(50)
    ensures ParseLimit(Some("50x")) == Ok(50)
  {
    assert !IsWhitespace('5');
    assert TrimStart("50x") == "50x";
    assert Unsigned("50x") == "50x";
    assert "50x" == "50" + "x";
    LeadingDigitsOf("50", "x");
    assert "50"[..1] == "5" && "5"[..0] == "";
    assert DigitsValue("5") == 5;
    assert DigitsValue("50") == 50;
  }

  /** A string of digits parses as its value. */
  lemma DigitsParse(s: string)
    requires |s| > 0 && AllDigits(s)
    ensures ParseInt(s) == Some(DigitsValue(s))
  {
    assert TrimStart(s) == s by {
      assert !IsWhitespace(s[0]);
    }
    assert Unsigned(s) == s;
    assert LeadingDigits(s) == s by {
      LeadingDigitsOf(s, "");
      assert s + "" == s;
    }
  }

  /** The decimal spelling of a natural number parses back to it. */
  lemma DecimalParses(n: nat)
    ensures ParseInt(ToDecimal(n)) == Some(n)
  {
    DigitsParse(ToDecimal(n));
    DecimalRoundTrip(n);
  }

  /** A small page request passes the controller but is raised to 20 by the use case. */
  lemma SmallLimitRaised(n: int)
    requires 1 <= n < 20
    ensures ParseLimit(Some(ToDecimal(n))) == Ok(n)
    ensures EffectiveLimit(n) == 20
  {
    DecimalParses(n);
    LimitAccepted(ToDecimal(n), n);
  }

  /** A text that `parseInt` reads as a number in 1..100 is accepted as that limit. */
  lemma LimitAccepted(text: string, n: int)
    requires ParseInt(text) == Some(n) && 1 <= n <= 100
    ensures ParseLimit(Some(text)) == Ok(n)
  {
    assert text != "";
  }
}
