/** The records the analyzer, the mapper and the report store exchange. */
module Entities {
  import opened Wrappers

  /** One header as the analyzer records it; `value` is absent for a missing header. */
  datatype HeaderEntry = HeaderEntry(name: string, value: Option<string>, present: bool, weight: real, leaking: bool)

  /** The analyzer's three buckets and the normalized score. */
  datatype HeaderAnalysisResult =
    HeaderAnalysisResult(detected: seq<HeaderEntry>, missing: seq<HeaderEntry>, leaking: seq<HeaderEntry>, score: real)

  /** A stored report: the flat header list and, optionally, the key of its share image. */
  datatype Report = Report(hash: string, url: string, createdAt: int, score: real, headers: seq<HeaderEntry>,
                           deleteToken: string, shareImageKey: Option<string>)
}
