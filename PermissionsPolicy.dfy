/** The Permissions-Policy rule, a stub: any present value earns full credit. */
module PermissionsPolicyParser {
  import opened Wrappers
  import opened HeaderParser

  const HeaderName: string := "permissions-policy"

  datatype Note = MissingNote | StubNote

  function Text(n: Note): string
  {
    match n
    case MissingNote => "Permissions-Policy header missing; sandboxed feature directives pending analysis."
    case StubNote => "Stub parser: not yet validating individual directives; provisional full credit granted."
  }

  /** Absence, or full credit whatever the content. */
  function Assess(value: Option<string>, weight: real): (r: Evaluation<Note>)
    ensures Sound(value, weight, r) && |r.notes| == 1
    ensures !Absent(value) ==> r.status == Pass && r.scoreDelta == weight
    ensures r.status in {Pass, Missing}
  {
    if Absent(value) then Evaluation(0.0, Missing, [MissingNote])
    else Evaluation(weight, Pass, [StubNote])
  }

  /** `evaluate`: the assessment with its note rendered as text. */
  function Evaluate(value: Option<string>, context: HeaderParserContext): (r: HeaderEvaluation)
    ensures Sound(value, context.weight, r) && |r.notes| == 1
    ensures r.status == Assess(value, context.weight).status
    ensures r.scoreDelta == Assess(value, context.weight).scoreDelta
  {
    RenderSound(value, context.weight, Assess(value, context.weight), Text);
    Render(Assess(value, context.weight), Text)
  }
}
