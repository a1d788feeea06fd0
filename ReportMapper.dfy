/**
 * Turning a stored report into the response the API sends: the flat header list is
 * filtered back into the detected, missing and leaking groups, and the share image
 * key becomes a CDN address.
 */
module ReportMapper {
  import opened Wrappers
  import opened Seqs
  import opened Entities
  import HeaderAnalyzer

  datatype GroupedHeaders = GroupedHeaders(detected: seq<HeaderEntry>, missing: seq<HeaderEntry>, leaking: seq<HeaderEntry>)

  /** The response body of a scan or a report fetch (no delete token is copied into it). */
  datatype ReportResponse = ReportResponse(hash: string, url: string, createdAt: int, score: real,
                                           headers: GroupedHeaders, shareImageUrl: Option<string>)

  predicate IsDetected(e: HeaderEntry)
  {
    e.present && !e.leaking
  }

  predicate IsMissing(e: HeaderEntry)
  {
    !e.present
  }

  predicate IsLeaking(e: HeaderEntry)
  {
    e.leaking
  }

  /** The grouping of `toScanResponseDTO`; each group keeps the order of the flat list. */
  function Group(entries: seq<HeaderEntry>): (g: GroupedHeaders)
    ensures forall i :: 0 <= i < |entries| ==> (entries[i] in g.detected <== IsDetected(entries[i]))
    ensures forall i :: 0 <= i < |entries| ==> (entries[i] in g.missing <== IsMissing(entries[i]))
    ensures forall i :: 0 <= i < |entries| ==> (entries[i] in g.leaking <== IsLeaking(entries[i]))
    ensures forall e :: e in g.detected ==> e in entries && IsDetected(e)
    ensures forall e :: e in g.missing ==> e in entries && IsMissing(e)
    ensures forall e :: e in g.leaking ==> e in entries && IsLeaking(e)
  {
    GroupedHeaders(Filter(IsDetected, entries), Filter(IsMissing, entries), Filter(IsLeaking, entries))
  }

  /** `https://<cdn>/images/<key>` when the report has a non-empty share image key, and null otherwise. */
  function ShareImageUrl(shareImageKey: Option<string>, cdnDomain: string): (u: Option<string>)
    ensures u.Some? <==> shareImageKey.Some? && shareImageKey.value != ""
    ensures u.Some? ==> u.value == "https://" + cdnDomain + "/images/" + shareImageKey.value
  {
    match shareImageKey
    case Some(key) => if key != "" then Some("https://" + cdnDomain + "/images/" + key) else None
    case None => None
  }

  /** `toScanResponseDTO` */
  function ToScanResponse(report: Report, cdnDomain: string): (r: ReportResponse)
    ensures r.hash == report.hash && r.url == report.url
    ensures r.createdAt == report.createdAt && r.score == report.score
    ensures r.headers == Group(report.headers)
    ensures r.shareImageUrl == ShareImageUrl(report.shareImageKey, cdnDomain)
  {
    ReportResponse(report.hash, report.url, report.createdAt, report.score,
                   Group(report.headers), ShareImageUrl(report.shareImageKey, cdnDomain))
  }

  /** `toFetchReportResponseDTO`: the same mapping as for a scan. */
  function ToFetchReportResponse(report: Report, cdnDomain: string): (r: ReportResponse)
    ensures r == ToScanResponse(report, cdnDomain)
  {
    ToScanResponse(report, cdnDomain)
  }

  /** `headerAnalysisToEntries`: the three groups one after another. */
  function HeaderAnalysisToEntries(result: HeaderAnalysisResult): (es: seq<HeaderEntry>)
    ensures |es| == |result.detected| + |result.missing| + |result.leaking|
    ensures es[..|result.detected|] == result.detected
    ensures es[|result.detected|..|result.detected| + |result.missing|] == result.missing
    ensures es[|result.detected| + |result.missing|..] == result.leaking
  {
    result.detected + result.missing + result.leaking
  }

  // ---------------------------------------------------------------- properties

  /** The groups an analysis produces: each entry satisfies exactly its own group's test. */
  predicate AnalyzerShaped(result: HeaderAnalysisResult)
  {
    && (forall e :: e in result.detected ==> e.present && !e.leaking)
    && (forall e :: e in result.missing ==> !e.present && !e.leaking)
    && (forall e :: e in result.leaking ==> e.present && e.leaking)
  }

  lemma FilterThree(p: HeaderEntry -> bool, d: seq<HeaderEntry>, m: seq<HeaderEntry>, l: seq<HeaderEntry>)
    ensures Filter(p, d + m + l) == Filter(p, d) + Filter(p, m) + Filter(p, l)
  {
    assert d + m + l == d + (m + l);
    FilterConcat(p, d, m + l);
    FilterConcat(p, m, l);
  }

  /** Flattening analyzer-shaped groups and grouping again gives back the three groups. */
  lemma RegroupRoundTrip(result: HeaderAnalysisResult)
    requires AnalyzerShaped(result)
    ensures Group(HeaderAnalysisToEntries(result)) == GroupedHeaders(result.detected, result.missing, result.leaking)
  {
    DetectedBack(result.detected, result.missing, result.leaking);
    MissingBack(result.detected, result.missing, result.leaking);
    LeakingBack(result.detected, result.missing, result.leaking);
  }

  lemma DetectedBack(d: seq<HeaderEntry>, m: seq<HeaderEntry>, l: seq<HeaderEntry>)
    requires AnalyzerShaped(HeaderAnalysisResult(d, m, l, 0.0))
    ensures Filter(IsDetected, d + m + l) == d
  {
    FilterThree(IsDetected, d, m, l);
    FilterAll(IsDetected, d);
    FilterNone(IsDetected, m);
    FilterNone(IsDetected, l);
  }

  lemma MissingBack(d: seq<HeaderEntry>, m: seq<HeaderEntry>, l: seq<HeaderEntry>)
    requires AnalyzerShaped(HeaderAnalysisResult(d, m, l, 0.0))
    ensures Filter(IsMissing, d + m + l) == m
  {
    FilterThree(IsMissing, d, m, l);
    FilterNone(IsMissing, d);
    FilterAll(IsMissing, m);
    FilterNone(IsMissing, l);
  }

  lemma LeakingBack(d: seq<HeaderEntry>, m: seq<HeaderEntry>, l: seq<HeaderEntry>)
    requires AnalyzerShaped(HeaderAnalysisResult(d, m, l, 0.0))
    ensures Filter(IsLeaking, d + m + l) == l
  {
    FilterThree(IsLeaking, d, m, l);
    FilterNone(IsLeaking, d);
    FilterNone(IsLeaking, m);
    FilterAll(IsLeaking, l);
  }

  /** What the analyzer returns is analyzer-shaped. */
  lemma AnalysisShaped(headers: HeaderAnalyzer.Headers)
    ensures AnalyzerShaped(HeaderAnalyzer.Analysis(headers))
  {
    HeaderAnalyzer.EntryShapes(headers, HeaderAnalyzer.SecurityHeaders);
    HeaderAnalyzer.EntryShapes(headers, HeaderAnalyzer.LeakingHeaders);
  }

  /**
   * A report stored from an analysis (its headers flattened as the scan does) is
   * answered with exactly the analysis's three groups.
   */
  lemma StoredAnalysisRegroups(headers: HeaderAnalyzer.Headers, hash: string, url: string, createdAt: int,
                               deleteToken: string, shareImageKey: Option<string>, cdnDomain: string)
    ensures var a := HeaderAnalyzer.Analysis(headers);
            var report := Report(hash, url, createdAt, a.score, HeaderAnalysisToEntries(a), deleteToken, shareImageKey);
            ToFetchReportResponse(report, cdnDomain).headers == GroupedHeaders(a.detected, a.missing, a.leaking)
  {
    AnalysisShaped(headers);
    RegroupRoundTrip(HeaderAnalyzer.Analysis(headers));
  }

  /** An entry that is absent yet marked leaking, a shape the analyzer never builds, lands in two groups. */
  lemma AbsentLeakingInTwoGroups(e: HeaderEntry)
    requires !e.present && e.leaking
    ensures Group([e]).missing == [e] && Group([e]).leaking == [e] && Group([e]).detected == []
  {
    assert [e][1..] == [];
  }
}
