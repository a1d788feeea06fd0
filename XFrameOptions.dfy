/** The X-Frame-Options rule: DENY / SAMEORIGIN / ALLOW-FROM, matched case-insensitively. */
module XFrameOptionsParser {
  import opened Wrappers
  import opened Strings
  import opened HeaderParser

  const HeaderName: string := "x-frame-options"

  /** The messages the rule can emit; `value` is the raw header value. */
  datatype Note =
    | MissingNote
    | DenyNote
    | SameOriginNote
    | DeprecatedNote(value: string)
    | UnrecognizedNote(value: string)

  function Text(n: Note): string
  {
    match n
    case MissingNote => "X-Frame-Options header missing; expect DENY or SAMEORIGIN."
    case DenyNote => "DENY prevents all framing, mitigating clickjacking."
    case SameOriginNote =>
      WarnMark + "SAMEORIGIN allows same-origin framing; add frame-ancestors to CSP for granular control."
    case DeprecatedNote(v) =>
      WarnMark + v + " is deprecated and only honored by a subset of browsers. Transition to CSP frame-ancestors."
    case UnrecognizedNote(v) =>
      FailMark + "Unrecognized X-Frame-Options directive \"" + v + "\". Use DENY or SAMEORIGIN."
  }

  /** The keyword bare, in double quotes or in single quotes. */
  predicate IsKeyword(n: string, keyword: string)
  {
    n == keyword || n == "\"" + keyword + "\"" || n == "'" + keyword + "'"
  }

  /** The if-chain on the normalized value `n` of a present header `value`. */
  function Decide(n: string, value: string, weight: real): (r: Evaluation<Note>)
    ensures |r.notes| == 1 && r.status != Missing && r.status != Unknown
    ensures 0.0 <= weight ==> 0.0 <= r.scoreDelta <= weight
    ensures IsKeyword(n, "DENY") ==> r.status == Pass && r.scoreDelta == weight
    ensures !IsKeyword(n, "DENY") && IsKeyword(n, "SAMEORIGIN") ==>
      r.status == Partial && r.scoreDelta == 0.8 * weight
    ensures !IsKeyword(n, "DENY") && !IsKeyword(n, "SAMEORIGIN") && "ALLOW-FROM" <= n ==>
      r.status == Partial && r.scoreDelta == 0.4 * weight
    ensures !IsKeyword(n, "DENY") && !IsKeyword(n, "SAMEORIGIN") && !("ALLOW-FROM" <= n) ==>
      r.status == Fail && r.scoreDelta == 0.0
  {
    if IsKeyword(n, "DENY") then
      Evaluation(weight, Pass, [DenyNote])
    else if IsKeyword(n, "SAMEORIGIN") then
      Evaluation(0.8 * weight, Partial, [SameOriginNote])
    else if "ALLOW-FROM" <= n then
      Evaluation(0.4 * weight, Partial, [DeprecatedNote(value)])
    else
      Evaluation(0.0, Fail, [UnrecognizedNote(value)])
  }

  /** Absence first, then the if-chain on `value.trim().toUpperCase()`. */
  function Assess(value: Option<string>, weight: real): (r: Evaluation<Note>)
    ensures Sound(value, weight, r) && |r.notes| == 1
    ensures !Absent(value) ==> r == Decide(UpperTrimmed(value.value), value.value, weight)
  {
    if Absent(value) then Evaluation(0.0, Missing, [MissingNote])
    else Decide(UpperTrimmed(value.value), value.value, weight)
  }

  /** `evaluate`: the assessment with its note rendered as text. */
  function Evaluate(value: Option<string>, context: HeaderParserContext): (r: HeaderEvaluation)
    ensures Sound(value, context.weight, r) && |r.notes| == 1
    ensures r.status == Assess(value, context.weight).status
    ensures r.scoreDelta == Assess(value, context.weight).scoreDelta
  {
    RenderSound(value, context.weight, Assess(value, context.weight), Text);
    Render(Assess(value, context.weight), Text)
  }

  /** Only the normalized form decides status and credit; the raw value only appears in notes. */
  lemma DecideIgnoresRaw(n: string, v1: string, v2: string, weight: real)
    ensures Decide(n, v1, weight).status == Decide(n, v2, weight).status
    ensures Decide(n, v1, weight).scoreDelta == Decide(n, v2, weight).scoreDelta
  {
  }

  /** `deny`, `Deny` and `DENY` are the same directive: lower-casing the value changes neither status nor credit. */
  lemma IgnoresCase(value: string, weight: real)
    ensures Assess(Some(ToLower(value)), weight).status == Assess(Some(value), weight).status
    ensures Assess(Some(ToLower(value)), weight).scoreDelta == Assess(Some(value), weight).scoreDelta
  {
    UpperTrimAbsorbs(value);
    DecideIgnoresRaw(UpperTrimmed(value), ToLower(value), value, weight);
  }

  /** Surrounding white space never matters once something else is left. */
  lemma IgnoresSurroundingSpace(value: string, weight: real)
    requires Trim(value) != ""
    ensures Assess(Some(Trim(value)), weight).status == Assess(Some(value), weight).status
    ensures Assess(Some(Trim(value)), weight).scoreDelta == Assess(Some(value), weight).scoreDelta
  {
    UpperTrimAbsorbs(value);
    DecideIgnoresRaw(UpperTrimmed(value), Trim(value), value, weight);
  }
}
