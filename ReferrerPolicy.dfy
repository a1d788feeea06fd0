/**
 * The Referrer-Policy rule: the comma-separated list is normalized and its first
 * token, the one browsers apply, is classed strict, moderate, unsafe or unknown.
 */
module ReferrerPolicyParser {
  import opened Wrappers
  import opened Seqs
  import opened Strings
  import opened HeaderParser

  const HeaderName: string := "referrer-policy"

  const StrictPolicies: set<string> :=
    {"no-referrer", "strict-origin-when-cross-origin", "same-origin", "strict-origin"}
  const ModeratePolicies: set<string> :=
    {"origin-when-cross-origin", "origin", "no-referrer-when-downgrade"}

  datatype Class = Strict | Moderate | Unsafe | UnknownPolicy

  datatype Note =
    | MissingNote
    | NoTokenNote
    | EffectivePolicyNote(policy: string)
    | MultipleNote
    | StrictNote
    | ModerateNote
    | UnsafeNote
    | UnrecognizedNote

  function Text(n: Note): string
  {
    match n
    case MissingNote => "Referrer-Policy header missing; browsers default to no-referrer-when-downgrade."
    case NoTokenNote => "Referrer-Policy header present but no valid token detected."
    case EffectivePolicyNote(p) => "Effective policy: " + p
    case MultipleNote => "Multiple policies detected; browsers use the first token."
    case StrictNote => "Policy meets modern privacy expectations."
    case ModerateNote => "Policy is better than default but still reveals extra origin data."
    case UnsafeNote => "unsafe-url leaks the full referrer including query strings."
    case UnrecognizedNote => "Unrecognized policy; treat as partial credit pending manual review."
  }

  /** `normalizePolicyList`: split on commas, trim and lower-case each entry, drop the empty ones. */
  function NormalizePolicyList(value: string): (policies: seq<string>)
    ensures |policies| <= |Split(value, ',')|
  {
    Filter(IsNonEmpty, Map(LowerTrimmed, Split(value, ',')))
  }

  /** Every policy in the list is non-empty and already in normal form. */
  lemma PoliciesNormalized(value: string)
    ensures forall p :: p in NormalizePolicyList(value) ==> p != "" && LowerTrimmed(p) == p
  {
    var normalized := Map(LowerTrimmed, Split(value, ','));
    forall p | p in NormalizePolicyList(value)
      ensures p != "" && LowerTrimmed(p) == p
    {
      assert p in normalized;
      NormalizedPart(normalized, Split(value, ','), p);
    }
  }

  /** An entry of the normalized parts is in normal form. */
  lemma NormalizedPart(normalized: seq<string>, parts: seq<string>, p: string)
    requires normalized == Map(LowerTrimmed, parts) && p in normalized
    ensures LowerTrimmed(p) == p
  {
    var k :| 0 <= k < |parts| && normalized[k] == p;
    LowerTrimIdempotent(parts[k]);
  }

  /** `classifyPolicy` */
  function Classify(policy: string): (c: Class)
    ensures c == Strict <==> policy in StrictPolicies
    ensures c == Moderate <==> policy in ModeratePolicies
    ensures c == Unsafe <==> policy == "unsafe-url"
  {
    if policy in StrictPolicies then Strict
    else if policy in ModeratePolicies then Moderate
    else if policy == "unsafe-url" then Unsafe
    else UnknownPolicy
  }

  /** The rule for a present value whose normalized list is `policies`. */
  function Decide(policies: seq<string>, weight: real): (r: Evaluation<Note>)
    ensures Judged(weight, r)
    ensures |policies| == 0 ==> r == Evaluation(0.0, Fail, [NoTokenNote])
    ensures |policies| > 0 ==>
      && |r.notes| == (if |policies| > 1 then 3 else 2)
      && r.notes[0] == EffectivePolicyNote(policies[0])
      && (r.notes[1] == MultipleNote <==> |policies| > 1)
    ensures |policies| > 0 ==>
      match Classify(policies[0])
      case Strict => r.status == Pass && r.scoreDelta == weight
      case Moderate => r.status == Partial && r.scoreDelta == 0.6 * weight
      case Unsafe => r.status == Fail && r.scoreDelta == 0.0
      case UnknownPolicy => r.status == Partial && r.scoreDelta == 0.4 * weight
  {
    if |policies| == 0 then
      Evaluation(0.0, Fail, [NoTokenNote])
    else
      var notes := [EffectivePolicyNote(policies[0])] + (if |policies| > 1 then [MultipleNote] else []);
      match Classify(policies[0])
      case Strict => Evaluation(weight, Pass, notes + [StrictNote])
      case Moderate => Evaluation(0.6 * weight, Partial, notes + [ModerateNote])
      case Unsafe => Evaluation(0.0, Fail, notes + [UnsafeNote])
      case UnknownPolicy => Evaluation(0.4 * weight, Partial, notes + [UnrecognizedNote])
  }

  /** The rule as a whole, with notes still symbolic. */
  function Assess(value: Option<string>, weight: real): (r: Evaluation<Note>)
    ensures Sound(value, weight, r)
    ensures !Absent(value) ==> r == Decide(NormalizePolicyList(value.value), weight)
  {
    if Absent(value) then Evaluation(0.0, Missing, [MissingNote])
    else Decide(NormalizePolicyList(value.value), weight)
  }

  /** `evaluate`: builds the notes step by step as the rule does, then renders them. */
  method Evaluate(value: Option<string>, context: HeaderParserContext) returns (r: HeaderEvaluation)
    ensures r == Render(Assess(value, context.weight), Text)
    ensures Sound(value, context.weight, r)
  {
    var e: Evaluation<Note>;
    if Absent(value) {
      e := Evaluation(0.0, Missing, [MissingNote]);
    } else {
      var policies := NormalizePolicyList(value.value);
      e := EvaluatePolicies(policies, context.weight);
    }
    r := Render(e, Text);
  }

  /** The part of `evaluate` after the list is normalized. */
  method EvaluatePolicies(policies: seq<string>, weight: real) returns (e: Evaluation<Note>)
    ensures e == Decide(policies, weight)
  {
    if |policies| == 0 {
      return Evaluation(0.0, Fail, [NoTokenNote]);
    }
    var effectivePolicy := policies[0];
    var classification := Classify(effectivePolicy);
    var notes := [EffectivePolicyNote(effectivePolicy)];
    if |policies| > 1 {
      notes := notes + [MultipleNote];
    }
    match classification {
      case Strict =>
        notes := notes + [StrictNote];
        e := Evaluation(weight, Pass, notes);
      case Moderate =>
        notes := notes + [ModerateNote];
        e := Evaluation(weight * 0.6, Partial, notes);
      case Unsafe =>
        notes := notes + [UnsafeNote];
        e := Evaluation(0.0, Fail, notes);
      case UnknownPolicy =>
        notes := notes + [UnrecognizedNote];
        e := Evaluation(weight * 0.4, Partial, notes);
    }
  }

  /** The three classes are disjoint, so the classification is well defined. */
  lemma ClassesDisjoint()
    ensures StrictPolicies * ModeratePolicies == {}
    ensures "unsafe-url" !in StrictPolicies && "unsafe-url" !in ModeratePolicies
  {
  }

  /** Only the first token decides status and credit; later tokens only add a note. */
  lemma FirstTokenDecides(p1: seq<string>, p2: seq<string>, weight: real)
    requires |p1| > 0 && |p2| > 0 && p1[0] == p2[0]
    ensures Decide(p1, weight).status == Decide(p2, weight).status
    ensures Decide(p1, weight).scoreDelta == Decide(p2, weight).scoreDelta
  {
  }

  /** A value without commas is a single policy, once trimmed and lower-cased. */
  lemma SinglePolicy(value: string)
    requires ',' !in value
    ensures NormalizePolicyList(value) == if LowerTrimmed(value) == "" then [] else [LowerTrimmed(value)]
  {
    SplitNoSeparator(value, ',');
    assert Map(LowerTrimmed, [value]) == [LowerTrimmed(value)];
  }
}
