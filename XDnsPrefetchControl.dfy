/** The X-DNS-Prefetch-Control rule: `off` is best; no present value fails. */
module XDnsPrefetchControlParser {
  import opened Wrappers
  import opened Strings
  import opened HeaderParser

  const HeaderName: string := "x-dns-prefetch-control"

  datatype Note =
    | MissingNote
    | DisabledNote
    | EnabledNote
    | UnrecognizedNote(value: string)

  function Text(n: Note): string
  {
    match n
    case MissingNote => "X-DNS-Prefetch-Control header missing; caching of DNS prefetch not yet evaluated."
    case DisabledNote => "DNS prefetching disabled to avoid leaking hostname metadata in advance."
    case EnabledNote =>
      WarnMark + "DNS prefetching is enabled; disable it unless speculative lookups are required."
    case UnrecognizedNote(v) =>
      WarnMark + "Unrecognized X-DNS-Prefetch-Control directive \"" + v + "\". Use off to prevent speculative lookups."
  }

  /** The if-chain on the normalized value `n` of a present header `value`. */
  function Decide(n: string, value: string, weight: real): (r: Evaluation<Note>)
    ensures |r.notes| == 1
    ensures n == "off" || n == "0" ==> r.status == Pass && r.scoreDelta == weight
    ensures n == "on" || n == "1" ==> r.status == Partial && r.scoreDelta == 0.3 * weight
    ensures n !in {"off", "0", "on", "1"} ==> r.status == Partial && r.scoreDelta == 0.4 * weight
  {
    if n == "off" || n == "0" then
      Evaluation(weight, Pass, [DisabledNote])
    else if n == "on" || n == "1" then
      Evaluation(0.3 * weight, Partial, [EnabledNote])
    else
      Evaluation(0.4 * weight, Partial, [UnrecognizedNote(value)])
  }

  /** Absence first, then the if-chain on `value.trim().toLowerCase()`. */
  function Assess(value: Option<string>, weight: real): (r: Evaluation<Note>)
    ensures Sound(value, weight, r) && |r.notes| == 1
    ensures !Absent(value) ==> r.status in {Pass, Partial}
    ensures !Absent(value) ==> r == Decide(LowerTrimmed(value.value), value.value, weight)
  {
    if Absent(value) then Evaluation(0.0, Missing, [MissingNote])
    else Decide(LowerTrimmed(value.value), value.value, weight)
  }

  /** `evaluate`: the assessment with its note rendered as text. */
  function Evaluate(value: Option<string>, context: HeaderParserContext): (r: HeaderEvaluation)
    ensures Sound(value, context.weight, r) && |r.notes| == 1
    ensures r.status == Assess(value, context.weight).status
    ensures r.scoreDelta == Assess(value, context.weight).scoreDelta
  {
    RenderSound(value, context.weight, Assess(value, context.weight), Text);
    Render(Assess(value, context.weight), Text)
  }

  /** Only the normalized form decides status and credit; the raw value only appears in notes. */
  lemma DecideIgnoresRaw(n: string, v1: string, v2: string, weight: real)
    ensures Decide(n, v1, weight).status == Decide(n, v2, weight).status
    ensures Decide(n, v1, weight).scoreDelta == Decide(n, v2, weight).scoreDelta
  {
  }

  /** Matching is case-insensitive. */
  lemma IgnoresCase(value: string, weight: real)
    ensures Assess(Some(ToUpper(value)), weight).status == Assess(Some(value), weight).status
    ensures Assess(Some(ToUpper(value)), weight).scoreDelta == Assess(Some(value), weight).scoreDelta
  {
    LowerTrimAbsorbs(value);
    DecideIgnoresRaw(LowerTrimmed(value), ToUpper(value), value, weight);
  }

  /** Surrounding white space never matters once something else is left. */
  lemma IgnoresSurroundingSpace(value: string, weight: real)
    requires Trim(value) != ""
    ensures Assess(Some(Trim(value)), weight).status == Assess(Some(value), weight).status
    ensures Assess(Some(Trim(value)), weight).scoreDelta == Assess(Some(value), weight).scoreDelta
  {
    LowerTrimAbsorbs(value);
    DecideIgnoresRaw(LowerTrimmed(value), Trim(value), value, weight);
  }
}
