/** The Origin-Agent-Cluster rule, a stub: any present value earns full credit. */
module OriginAgentClusterParser {
  import opened Wrappers
  import opened HeaderParser

  const HeaderName: string := "origin-agent-cluster"

  datatype Note = MissingNote | StubNote

  function Text(n: Note): string
  {
    match n
    case MissingNote => "Origin-Agent-Cluster header missing; enforcing isolation to be handled later."
    case StubNote => "Stub parser: currently not checking for \"?1\" token; provisional credit applied."
  }

  /** Absence, or full credit whatever the content. */
  function Assess(value: Option<string>, weight: real): (r: Evaluation<Note>)
    ensures Sound(value, weight, r) && |r.notes| == 1
    ensures !Absent(value) ==> r.status == Pass && r.scoreDelta == weight
    ensures r.status in {Pass, Missing}
  {
    if Absent(value) then Evaluation(0.0, Missing, [MissingNote])
    else Evaluation(weight, Pass, [StubNote])
  }

  /** `evaluate`: the assessment with its note rendered as text. */
  function Evaluate(value: Option<string>, context: HeaderParserContext): (r: HeaderEvaluation)
    ensures Sound(value, context.weight, r) && |r.notes| == 1
    ensures r.status == Assess(value, context.weight).status
    ensures r.scoreDelta == Assess(value, context.weight).scoreDelta
  {
    RenderSound(value, context.weight, Assess(value, context.weight), Text);
    Render(Assess(value, context.weight), Text)
  }
}
