/** The Cross-Origin-Resource-Policy rule: `same-origin` is best, `cross-origin` fails. */
module CrossOriginResourcePolicyParser {
  import opened Wrappers
  import opened Strings
  import opened HeaderParser

  const HeaderName: string := "cross-origin-resource-policy"

  datatype Note =
    | MissingNote
    | SameOriginNote
    | SameSiteNote
    | CrossOriginNote
    | UnrecognizedNote(value: string)

  function Text(n: Note): string
  {
    match n
    case MissingNote => "Cross-Origin-Resource-Policy header missing; browsers may share resources with any origin."
    case SameOriginNote => "same-origin ensures responses are only shared with the origin that served them."
    case SameSiteNote => WarnMark + "same-site allows subdomains to consume responses. Prefer same-origin for stricter isolation."
    case CrossOriginNote => FailMark + "cross-origin shares responses with any origin, negating CORP protections."
    case UnrecognizedNote(v) => WarnMark + "Unrecognized CORP value \"" + v + "\". Use same-origin to prevent cross-origin data leaks."
  }

  /** The if-chain on the normalized value `n` of a present header `value`. */
  function Decide(n: string, value: string, weight: real): (r: Evaluation<Note>)
    ensures |r.notes| == 1
    ensures n == "same-origin" ==> r.status == Pass && r.scoreDelta == weight
    ensures n == "same-site" ==> r.status == Partial && r.scoreDelta == 0.7 * weight
    ensures n == "cross-origin" ==> r.status == Fail && r.scoreDelta == 0.0
    ensures n != "same-origin" && n != "same-site" && n != "cross-origin" ==>
      r.status == Partial && r.scoreDelta == 0.4 * weight
  {
    if n == "same-origin" then
      Evaluation(weight, Pass, [SameOriginNote])
    else if n == "same-site" then
      Evaluation(0.7 * weight, Partial, [SameSiteNote])
    else if n == "cross-origin" then
      Evaluation(0.0, Fail, [CrossOriginNote])
    else
      Evaluation(0.4 * weight, Partial, [UnrecognizedNote(value)])
  }

  /** Absence first, then the if-chain on `value.trim().toLowerCase()`. */
  function Assess(value: Option<string>, weight: real): (r: Evaluation<Note>)
    ensures Sound(value, weight, r) && |r.notes| == 1
    ensures !Absent(value) ==> r == Decide(LowerTrimmed(value.value), value.value, weight)
  {
    if Absent(value) then Evaluation(0.0, Missing, [MissingNote])
    else Decide(LowerTrimmed(value.value), value.value, weight)
  }

  /** `evaluate`: the assessment with its note rendered as text. */
  function Evaluate(value: Option<string>, context: HeaderParserContext): (r: HeaderEvaluation)
    ensures Sound(value, context.weight, r) && |r.notes| == 1
    ensures r.status == Assess(value, context.weight).status
    ensures r.scoreDelta == Assess(value, context.weight).scoreDelta
  {
    RenderSound(value, context.weight, Assess(value, context.weight), Text);
    Render(Assess(value, context.weight), Text)
  }

  /** Only the normalized form decides status and credit; the raw value only appears in notes. */
  lemma DecideIgnoresRaw(n: string, v1: string, v2: string, weight: real)
    ensures Decide(n, v1, weight).status == Decide(n, v2, weight).status
    ensures Decide(n, v1, weight).scoreDelta == Decide(n, v2, weight).scoreDelta
  {
  }

  /** Matching is case-insensitive. */
  lemma IgnoresCase(value: string, weight: real)
    ensures Assess(Some(ToUpper(value)), weight).status == Assess(Some(value), weight).status
    ensures Assess(Some(ToUpper(value)), weight).scoreDelta == Assess(Some(value), weight).scoreDelta
  {
    LowerTrimAbsorbs(value);
    DecideIgnoresRaw(LowerTrimmed(value), ToUpper(value), value, weight);
  }

  /** Surrounding white space never matters once something else is left. */
  lemma IgnoresSurroundingSpace(value: string, weight: real)
    requires Trim(value) != ""
    ensures Assess(Some(Trim(value)), weight).status == Assess(Some(value), weight).status
    ensures Assess(Some(Trim(value)), weight).scoreDelta == Assess(Some(value), weight).scoreDelta
  {
    LowerTrimAbsorbs(value);
    DecideIgnoresRaw(LowerTrimmed(value), Trim(value), value, weight);
  }
}
