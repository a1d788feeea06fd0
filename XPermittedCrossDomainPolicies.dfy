/** The X-Permitted-Cross-Domain-Policies rule: `none` is best, `all` fails. */
module XPermittedCrossDomainPoliciesParser {
  import opened Wrappers
  import opened Strings
  import opened HeaderParser

  const HeaderName: string := "x-permitted-cross-domain-policies"

  datatype Note =
    | MissingNote
    | NoneNote
    | MasterOnlyNote
    | RestrictedNote(value: string)
    | AllNote
    | UnrecognizedNote(value: string)

  function Text(n: Note): string
  {
    match n
    case MissingNote => "X-Permitted-Cross-Domain-Policies header missing; expecting \"none\" ideally."
    case NoneNote => "none blocks Flash/Adobe cross-domain policy files entirely."
    case MasterOnlyNote =>
      WarnMark + "master-only allows a single policy file; legacy Flash clients may still request data. Prefer none."
    case RestrictedNote(v) =>
      WarnMark + v + " restricts policies but still enables certain cross-domain requests. Use none to disable completely."
    case AllNote => FailMark + "all allows any cross-domain policy file, exposing old Flash attack surface."
    case UnrecognizedNote(v) =>
      WarnMark + "Unrecognized X-Permitted-Cross-Domain-Policies value \"" + v
      + "\". Use none to disable cross-domain policy files."
  }

  /** The if-chain on the normalized value `n` of a present header `value`. */
  function Decide(n: string, value: string, weight: real): (r: Evaluation<Note>)
    ensures |r.notes| == 1
    ensures n == "none" ==> r.status == Pass && r.scoreDelta == weight
    ensures n == "master-only" ==> r.status == Partial && r.scoreDelta == 0.6 * weight
    ensures n == "by-content-type" || n == "by-ftp-filename" ==> r.status == Partial && r.scoreDelta == 0.4 * weight
    ensures n == "all" ==> r.status == Fail && r.scoreDelta == 0.0
    ensures n !in {"none", "master-only", "by-content-type", "by-ftp-filename", "all"} ==>
      r.status == Partial && r.scoreDelta == 0.4 * weight
  {
    if n == "none" then
      Evaluation(weight, Pass, [NoneNote])
    else if n == "master-only" then
      Evaluation(0.6 * weight, Partial, [MasterOnlyNote])
    else if n == "by-content-type" || n == "by-ftp-filename" then
      Evaluation(0.4 * weight, Partial, [RestrictedNote(value)])
    else if n == "all" then
      Evaluation(0.0, Fail, [AllNote])
    else
      Evaluation(0.4 * weight, Partial, [UnrecognizedNote(value)])
  }

  /** Absence first, then the if-chain on `value.trim().toLowerCase()`. */
  function Assess(value: Option<string>, weight: real): (r: Evaluation<Note>)
    ensures Sound(value, weight, r) && |r.notes| == 1
    ensures !Absent(value) ==> r == Decide(LowerTrimmed(value.value), value.value, weight)
  {
    if Absent(value) then Evaluation(0.0, Missing, [MissingNote])
    else Decide(LowerTrimmed(value.value), value.value, weight)
  }

  /** `evaluate`: the assessment with its note rendered as text. */
  function Evaluate(value: Option<string>, context: HeaderParserContext): (r: HeaderEvaluation)
    ensures Sound(value, context.weight, r) && |r.notes| == 1
    ensures r.status == Assess(value, context.weight).status
    ensures r.scoreDelta == Assess(value, context.weight).scoreDelta
  {
    RenderSound(value, context.weight, Assess(value, context.weight), Text);
    Render(Assess(value, context.weight), Text)
  }

  /** Only the normalized form decides status and credit; the raw value only appears in notes. */
  lemma DecideIgnoresRaw(n: string, v1: string, v2: string, weight: real)
    ensures Decide(n, v1, weight).status == Decide(n, v2, weight).status
    ensures Decide(n, v1, weight).scoreDelta == Decide(n, v2, weight).scoreDelta
  {
  }

  /** Matching is case-insensitive. */
  lemma IgnoresCase(value: string, weight: real)
    ensures Assess(Some(ToUpper(value)), weight).status == Assess(Some(value), weight).status
    ensures Assess(Some(ToUpper(value)), weight).scoreDelta == Assess(Some(value), weight).scoreDelta
  {
    LowerTrimAbsorbs(value);
    DecideIgnoresRaw(LowerTrimmed(value), ToUpper(value), value, weight);
  }

  /** Surrounding white space never matters once something else is left. */
  lemma IgnoresSurroundingSpace(value: string, weight: real)
    requires Trim(value) != ""
    ensures Assess(Some(Trim(value)), weight).status == Assess(Some(value), weight).status
    ensures Assess(Some(Trim(value)), weight).scoreDelta == Assess(Some(value), weight).scoreDelta
  {
    LowerTrimAbsorbs(value);
    DecideIgnoresRaw(LowerTrimmed(value), Trim(value), value, weight);
  }
}
