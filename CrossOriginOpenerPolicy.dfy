/** The Cross-Origin-Opener-Policy rule: `same-origin` is best, `unsafe-none` fails. */
module CrossOriginOpenerPolicyParser {
  import opened Wrappers
  import opened Strings
  import opened HeaderParser

  const HeaderName: string := "cross-origin-opener-policy"

  datatype Note =
    | MissingNote
    | SameOriginNote
    | AllowPopupsNote
    | UnsafeNoneNote
    | UnrecognizedNote(value: string)

  function Text(n: Note): string
  {
    match n
    case MissingNote => "Cross-Origin-Opener-Policy header missing; document cannot guarantee cross-origin isolation."
    case SameOriginNote => "same-origin provides full cross-origin isolation for popup windows."
    case AllowPopupsNote => WarnMark + "same-origin-allow-popups permits popups to reattach to the opener; use same-origin for stronger isolation."
    case UnsafeNoneNote => FailMark + "unsafe-none disables cross-origin opener protection, enabling speculative side-channel attacks."
    case UnrecognizedNote(v) => WarnMark + "Unrecognized COOP value \"" + v + "\". Prefer same-origin for robust isolation."
  }

  /** The if-chain on the normalized value `n` of a present header `value`. */
  function Decide(n: string, value: string, weight: real): (r: Evaluation<Note>)
    ensures |r.notes| == 1
    ensures n == "same-origin" ==> r.status == Pass && r.scoreDelta == weight
    ensures n == "same-origin-allow-popups" ==> r.status == Partial && r.scoreDelta == 0.6 * weight
    ensures n == "unsafe-none" ==> r.status == Fail && r.scoreDelta == 0.0
    ensures n != "same-origin" && n != "same-origin-allow-popups" && n != "unsafe-none" ==>
      r.status == Partial && r.scoreDelta == 0.4 * weight
  {
    if n == "same-origin" then
      Evaluation(weight, Pass, [SameOriginNote])
    else if n == "same-origin-allow-popups" then
      Evaluation(0.6 * weight, Partial, [AllowPopupsNote])
    else if n == "unsafe-none" then
      Evaluation(0.0, Fail, [UnsafeNoneNote])
    else
      Evaluation(0.4 * weight, Partial, [UnrecognizedNote(value)])
  }

  /** Absence first, then the if-chain on `value.trim().toLowerCase()`. */
  function Assess(value: Option<string>, weight: real): (r: Evaluation<Note>)
    ensures Sound(value, weight, r) && |r.notes| == 1
    ensures !Absent(value) ==> r == Decide(LowerTrimmed(value.value), value.value, weight)
  {
    if Absent(value) then Evaluation(0.0, Missing, [MissingNote])
    else Decide(LowerTrimmed(value.value), value.value, weight)
  }

  /** `evaluate`: the assessment with its note rendered as text. */
  function Evaluate(value: Option<string>, context: HeaderParserContext): (r: HeaderEvaluation)
    ensures Sound(value, context.weight, r) && |r.notes| == 1
    ensures r.status == Assess(value, context.weight).status
    ensures r.scoreDelta == Assess(value, context.weight).scoreDelta
  {
    RenderSound(value, context.weight, Assess(value, context.weight), Text);
    Render(Assess(value, context.weight), Text)
  }

  /** Only the normalized form decides status and credit; the raw value only appears in notes. */
  lemma DecideIgnoresRaw(n: string, v1: string, v2: string, weight: real)
    ensures Decide(n, v1, weight).status == Decide(n, v2, weight).status
    ensures Decide(n, v1, weight).scoreDelta == Decide(n, v2, weight).scoreDelta
  {
  }

  /** Matching is case-insensitive. */
  lemma IgnoresCase(value: string, weight: real)
    ensures Assess(Some(ToUpper(value)), weight).status == Assess(Some(value), weight).status
    ensures Assess(Some(ToUpper(value)), weight).scoreDelta == Assess(Some(value), weight).scoreDelta
  {
    LowerTrimAbsorbs(value);
    DecideIgnoresRaw(LowerTrimmed(value), ToUpper(value), value, weight);
  }

  /** Surrounding white space never matters once something else is left. */
  lemma IgnoresSurroundingSpace(value: string, weight: real)
    requires Trim(value) != ""
    ensures Assess(Some(Trim(value)), weight).status == Assess(Some(value), weight).status
    ensures Assess(Some(Trim(value)), weight).scoreDelta == Assess(Some(value), weight).scoreDelta
  {
    LowerTrimAbsorbs(value);
    DecideIgnoresRaw(LowerTrimmed(value), Trim(value), value, weight);
  }
}
