/** The X-Content-Type-Options rule: only `nosniff` earns credit. */
module XContentTypeOptionsParser {
  import opened Wrappers
  import opened Strings
  import opened HeaderParser

  const HeaderName: string := "x-content-type-options"

  datatype Note =
    | MissingNote
    | NoSniffNote
    | DisabledNote(value: string)
    | UnexpectedNote(value: string)

  function Text(n: Note): string
  {
    match n
    case MissingNote => "X-Content-Type-Options header missing; expect \"nosniff\" for success."
    case NoSniffNote => "nosniff prevents MIME-sniffing attacks on stylesheets and scripts."
    case DisabledNote(v) =>
      FailMark + "X-Content-Type-Options is explicitly disabled (" + v + "); browsers may sniff dangerous MIME types."
    case UnexpectedNote(v) =>
      WarnMark + "Unexpected directive \"" + v + "\". Use nosniff to ensure consistent MIME enforcement."
  }

  /** The if-chain on the normalized value `n` of a present header `value`. */
  function Decide(n: string, value: string, weight: real): (r: Evaluation<Note>)
    ensures |r.notes| == 1
    ensures n == "nosniff" ==> r.status == Pass && r.scoreDelta == weight
    ensures n == "0" || n == "off" ==> r.status == Fail && r.scoreDelta == 0.0
    ensures n != "nosniff" && n != "0" && n != "off" ==> r.status == Partial && r.scoreDelta == 0.3 * weight
  {
    if n == "nosniff" then
      Evaluation(weight, Pass, [NoSniffNote])
    else if n == "0" || n == "off" then
      Evaluation(0.0, Fail, [DisabledNote(value)])
    else
      Evaluation(0.3 * weight, Partial, [UnexpectedNote(value)])
  }

  /** Absence first, then the if-chain on `value.trim().toLowerCase()`. */
  function Assess(value: Option<string>, weight: real): (r: Evaluation<Note>)
    ensures Sound(value, weight, r) && |r.notes| == 1
    ensures !Absent(value) ==> r == Decide(LowerTrimmed(value.value), value.value, weight)
  {
    if Absent(value) then Evaluation(0.0, Missing, [MissingNote])
    else Decide(LowerTrimmed(value.value), value.value, weight)
  }

  /** `evaluate`: the assessment with its note rendered as text. */
  function Evaluate(value: Option<string>, context: HeaderParserContext): (r: HeaderEvaluation)
    ensures Sound(value, context.weight, r) && |r.notes| == 1
    ensures r.status == Assess(value, context.weight).status
    ensures r.scoreDelta == Assess(value, context.weight).scoreDelta
  {
    RenderSound(value, context.weight, Assess(value, context.weight), Text);
    Render(Assess(value, context.weight), Text)
  }

  /** Only the normalized form decides status and credit; the raw value only appears in notes. */
  lemma DecideIgnoresRaw(n: string, v1: string, v2: string, weight: real)
    ensures Decide(n, v1, weight).status == Decide(n, v2, weight).status
    ensures Decide(n, v1, weight).scoreDelta == Decide(n, v2, weight).scoreDelta
  {
  }

  /** `NOSNIFF` and `nosniff` are the same directive. */
  lemma IgnoresCase(value: string, weight: real)
    ensures Assess(Some(ToUpper(value)), weight).status == Assess(Some(value), weight).status
    ensures Assess(Some(ToUpper(value)), weight).scoreDelta == Assess(Some(value), weight).scoreDelta
  {
    LowerTrimAbsorbs(value);
    DecideIgnoresRaw(LowerTrimmed(value), ToUpper(value), value, weight);
  }

  /** Surrounding white space never matters once something else is left. */
  lemma IgnoresSurroundingSpace(value: string, weight: real)
    requires Trim(value) != ""
    ensures Assess(Some(Trim(value)), weight).status == Assess(Some(value), weight).status
    ensures Assess(Some(Trim(value)), weight).scoreDelta == Assess(Some(value), weight).scoreDelta
  {
    LowerTrimAbsorbs(value);
    DecideIgnoresRaw(LowerTrimmed(value), Trim(value), value, weight);
  }
}
