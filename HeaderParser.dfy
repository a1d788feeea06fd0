/**
 * The contract shared by the per-header rules: a rule maps a header value, or its
 * absence, and a weight to a verdict with a score contribution and notes.
 */
module HeaderParser {
  import opened Wrappers
  import Seqs
  import opened Strings

  datatype Status = Pass | Partial | Fail | Missing | Unknown

  /**
   * The per-header verdict. The rules build it over their own note type `N` (a
   * datatype naming each message and its parameters); `Render` turns the notes
   * into the text the rule emits, giving the interface's `HeaderEvaluation`.
   */
  datatype Evaluation<N> = Evaluation(scoreDelta: real, status: Status, notes: seq<N>)

  type HeaderEvaluation = Evaluation<string>

  /** Replaces every note by its text; score and status are untouched. */
  function Render<N>(e: Evaluation<N>, text: N -> string): (r: HeaderEvaluation)
    ensures r.scoreDelta == e.scoreDelta && r.status == e.status
    ensures |r.notes| == |e.notes|
    ensures forall i :: 0 <= i < |e.notes| ==> r.notes[i] == text(e.notes[i])
  {
    Evaluation(e.scoreDelta, e.status, Seqs.Map(text, e.notes))
  }

  /** Rendering the notes keeps the shared contract, which reads only status, credit and note count. */
  lemma RenderSound<N>(value: Option<string>, weight: real, e: Evaluation<N>, text: N -> string)
    requires Sound(value, weight, e)
    ensures Sound(value, weight, Render(e, text))
  {
  }

  /** What a rule is told besides the value; only `weight` is read by the rules. */
  datatype HeaderParserContext = HeaderParserContext(headerName: string, weight: real, allHeaders: map<string, string>)

  /** `!value`: JavaScript treats `undefined` and the empty string alike. */
  predicate Absent(value: Option<string>)
  {
    value.None? || value.value == ""
  }

  /** `value.trim().toLowerCase()`, the form most rules compare against. */
  function LowerTrimmed(value: string): string
  {
    ToLower(Trim(value))
  }

  /** `value.trim().toUpperCase()` */
  function UpperTrimmed(value: string): string
  {
    ToUpper(Trim(value))
  }

  // Glyphs the rules put in front of their notes.
  const FailMark: string := "\U{274C} "
  const WarnMark: string := "\U{26A0}\U{FE0F} "
  const InfoMark: string := "\U{2139}\U{FE0F} "
  const OkMark: string := "\U{2705} "

  /** The fail-over-warn-over-pass ranking used by the rules that collect reasons. */
  function Severity<R>(failReasons: seq<R>, warnReasons: seq<R>): (s: Status)
    ensures s == Fail <==> |failReasons| > 0
    ensures s == Partial <==> |failReasons| == 0 && |warnReasons| > 0
    ensures s == Pass <==> |failReasons| == 0 && |warnReasons| == 0
  {
    if |failReasons| > 0 then Fail else if |warnReasons| > 0 then Partial else Pass
  }

  /**
   * What a rule guarantees for a present value: a verdict other than `missing` or
   * `unknown`, at least one note, and for a non-negative weight a credit between 0
   * and the weight.
   */
  predicate Judged<N>(weight: real, r: Evaluation<N>)
  {
    && r.status !in {Missing, Unknown}
    && |r.notes| >= 1
    && (0.0 <= weight ==> 0.0 <= r.scoreDelta <= weight)
  }

  /**
   * What every rule guarantees: absence and only absence yields `missing` with no
   * credit and a single note; there is always at least one note; `unknown` is never
   * produced; and for a non-negative weight the credit lies between 0 and the weight.
   */
  predicate Sound<N>(value: Option<string>, weight: real, r: Evaluation<N>)
  {
    && (r.status == Missing <==> Absent(value))
    && (r.status == Missing ==> r.scoreDelta == 0.0 && |r.notes| == 1)
    && |r.notes| >= 1
    && r.status != Unknown
    && (0.0 <= weight ==> 0.0 <= r.scoreDelta <= weight)
  }
}
