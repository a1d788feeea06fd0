/**
 * The Clear-Site-Data rule: the comma-separated directives are cleaned up; a
 * wildcard or an unknown directive costs credit, an empty list fails.
 */
module ClearSiteDataParser {
  import opened Wrappers
  import opened Seqs
  import opened Strings
  import opened HeaderParser

  const HeaderName: string := "clear-site-data"

  /** `allowedTokens` */
  const AllowedTokens: set<string> := {"cache", "cookies", "storage", "executioncontexts"}

  /** The reasons the rule collects before marking them as warnings or information. */
  datatype Reason =
    | Wildcard
    | UnknownDirectives(unknown: seq<string>)
    | ClearingScopes(tokens: seq<string>)

  datatype Note =
    | MissingNote
    | EmptyNote
    | ObservedNote(value: string)
    | Warning(reason: Reason)
    | Information(reason: Reason)

  function ReasonText(r: Reason): string
  {
    match r
    case Wildcard => "Wildcard \"*\" clears all data; prefer targeted directives for minimal impact."
    case UnknownDirectives(u) => "Unknown directives detected: " + Join(u, ", ") + "."
    case ClearingScopes(ts) => "Clearing scopes: " + Join(ts, ", ") + "."
  }

  function Text(n: Note): string
  {
    match n
    case MissingNote => "Clear-Site-Data header missing; user data may persist across sessions."
    case EmptyNote =>
      FailMark + "Clear-Site-Data header present but no directives provided; browsers ignore empty lists."
    case ObservedNote(v) => "Observed Clear-Site-Data: " + v
    case Warning(r) => WarnMark + ReasonText(r)
    case Information(r) => InfoMark + ReasonText(r)
  }

  function WarnNote(r: Reason): Note { Warning(r) }
  function InfoNote(r: Reason): Note { Information(r) }

  /** One list entry: trimmed, one leading and one trailing `"` removed, lower-cased. */
  function CleanToken(entry: string): string
  {
    ToLower(StripQuotes(Trim(entry), '"'))
  }

  /** `parseTokens` */
  function ParseTokens(value: string): (tokens: seq<string>)
    ensures |tokens| <= |Split(value, ',')|
  {
    Filter(IsNonEmpty, Map(CleanToken, Split(value, ',')))
  }

  /** Every token is a non-empty, lower-case cleaned entry, and every entry that cleans to something is a token. */
  lemma TokensCleaned(value: string)
    ensures forall t :: t in ParseTokens(value) ==> t != "" && ToLower(t) == t
    ensures forall k :: 0 <= k < |Split(value, ',')| && CleanToken(Split(value, ',')[k]) != "" ==>
              CleanToken(Split(value, ',')[k]) in ParseTokens(value)
  {
    var parts := Split(value, ',');
    var tokens := ParseTokens(value);
    forall t | t in tokens
      ensures t != "" && ToLower(t) == t
    {
      var i :| 0 <= i < |tokens| && tokens[i] == t;
      var k :| 0 <= k < |parts| && Map(CleanToken, parts)[k] == t;
      ToLowerIdempotent(StripQuotes(Trim(parts[k]), '"'));
    }
    forall k | 0 <= k < |parts| && CleanToken(parts[k]) != ""
      ensures CleanToken(parts[k]) in tokens
    {
      assert Map(CleanToken, parts)[k] == CleanToken(parts[k]);
    }
  }

  predicate IsUnknown(token: string)
  {
    token != "*" && token !in AllowedTokens
  }

  /** The tokens that are neither the wildcard nor an allowed directive, in order. */
  function UnknownTokens(tokens: seq<string>): (u: seq<string>)
    ensures forall i :: 0 <= i < |u| ==> u[i] in tokens && IsUnknown(u[i])
    ensures forall i :: 0 <= i < |tokens| && IsUnknown(tokens[i]) ==> tokens[i] in u
  {
    Filter(IsUnknown, tokens)
  }

  /** The rule for a present `value` whose token list is `tokens`, with notes still symbolic. */
  function Decide(tokens: seq<string>, value: string, weight: real): (r: Evaluation<Note>)
  {
    if |tokens| == 0 then
      Evaluation(0.0, Fail, [EmptyNote])
    else
      var hasWildcard := "*" in tokens;
      var unknown := UnknownTokens(tokens);
      var warnReasons := (if hasWildcard then [Wildcard] else [])
        + (if |unknown| > 0 then [UnknownDirectives(unknown)] else []);
      var infoNotes := if hasWildcard then [] else [ClearingScopes(tokens)];
      var status := if |warnReasons| > 0 then Partial else Pass;
      Evaluation(weight * (if status == Pass then 1.0 else 0.6), status,
        [ObservedNote(value)] + Map(WarnNote, warnReasons) + Map(InfoNote, infoNotes))
  }

  /** The rule as a whole, with notes still symbolic. */
  function Assess(value: Option<string>, weight: real): (r: Evaluation<Note>)
    ensures Sound(value, weight, r)
    ensures !Absent(value) ==> r == Decide(ParseTokens(value.value), value.value, weight)
  {
    if Absent(value) then Evaluation(0.0, Missing, [MissingNote])
    else
      DecideJudged(ParseTokens(value.value), value.value, weight);
      Decide(ParseTokens(value.value), value.value, weight)
  }

  /** An empty list fails with its single note and no credit. */
  lemma DecideEmpty(value: string, weight: real)
    ensures Decide([], value, weight) == Evaluation(0.0, Fail, [EmptyNote])
  {
  }

  /** Every present value gets a verdict, a note and a credit within the weight. */
  lemma DecideJudged(tokens: seq<string>, value: string, weight: real)
    ensures Judged(weight, Decide(tokens, value, weight))
  {
  }

  /**
   * With at least one token the rule never fails; it is `partial` with 0.6 of the
   * weight exactly when some token is the wildcard or outside the allowed set, and
   * `pass` with the full weight otherwise.
   */
  lemma DecideVerdict(tokens: seq<string>, value: string, weight: real)
    requires |tokens| > 0
    ensures var r := Decide(tokens, value, weight);
      && r.status in {Pass, Partial}
      && (r.status == Pass <==> forall i :: 0 <= i < |tokens| ==> tokens[i] in AllowedTokens)
      && r.scoreDelta == (if r.status == Pass then weight else 0.6 * weight)
  {
    var u := UnknownTokens(tokens);
    if forall i :: 0 <= i < |tokens| ==> tokens[i] in AllowedTokens {
      assert "*" !in tokens;
      FilterNone(IsUnknown, tokens);
    } else {
      var i :| 0 <= i < |tokens| && tokens[i] !in AllowedTokens;
      assert tokens[i] == "*" || tokens[i] in u;
    }
  }

  /**
   * The notes open with the observed value, then the warnings, then the information;
   * the "Clearing scopes" note, listing every token, is there exactly when no token
   * is the wildcard.
   */
  lemma DecideNotes(tokens: seq<string>, value: string, weight: real)
    requires |tokens| > 0
    ensures var notes := Decide(tokens, value, weight).notes;
      && notes[0] == ObservedNote(value)
      && (forall i :: 1 <= i < |notes| ==> notes[i].Warning? || notes[i].Information?)
      && (forall i, j :: 1 <= i < j < |notes| ==> !(notes[i].Information? && notes[j].Warning?))
      && (Information(ClearingScopes(tokens)) in notes <==> "*" !in tokens)
  {
    var notes := Decide(tokens, value, weight).notes;
    var hasWildcard := "*" in tokens;
    var unknown := UnknownTokens(tokens);
    var warnReasons := (if hasWildcard then [Wildcard] else [])
      + (if |unknown| > 0 then [UnknownDirectives(unknown)] else []);
    var infoNotes := if hasWildcard then [] else [ClearingScopes(tokens)];
    var ws := Map(WarnNote, warnReasons);
    var infos := Map(InfoNote, infoNotes);
    assert notes == [ObservedNote(value)] + ws + infos;
    assert forall i :: 1 <= i <= |ws| ==> notes[i] == ws[i - 1];
    assert forall i :: |ws| < i < |notes| ==> notes[i] == infos[i - 1 - |ws|];
  }

  /** `evaluate`: pushes the reasons one by one as the rule does, then renders the notes. */
  method Evaluate(value: Option<string>, context: HeaderParserContext) returns (r: HeaderEvaluation)
    ensures r == Render(Assess(value, context.weight), Text)
    ensures Sound(value, context.weight, r)
  {
    var e: Evaluation<Note>;
    if Absent(value) {
      e := Evaluation(0.0, Missing, [MissingNote]);
    } else {
      var tokens := ParseTokens(value.value);
      e := EvaluateTokens(tokens, value.value, context.weight);
    }
    r := Render(e, Text);
  }

  /** The part of `evaluate` after the tokens are parsed. */
  method EvaluateTokens(tokens: seq<string>, value: string, weight: real) returns (e: Evaluation<Note>)
    ensures e == Decide(tokens, value, weight)
  {
    if |tokens| == 0 {
      return Evaluation(0.0, Fail, [EmptyNote]);
    }
    var hasWildcard := "*" in tokens;
    var unknown := UnknownTokens(tokens);
    var infoNotes: seq<Reason> := [];
    var warnReasons: seq<Reason> := [];
    if hasWildcard {
      warnReasons := warnReasons + [Wildcard];
    }
    if |unknown| > 0 {
      warnReasons := warnReasons + [UnknownDirectives(unknown)];
    }
    if !hasWildcard {
      infoNotes := infoNotes + [ClearingScopes(tokens)];
    }
    var status := if |warnReasons| > 0 then Partial else Pass;
    var multiplier := if status == Pass then 1.0 else 0.6;
    e := Evaluation(weight * multiplier, status,
      [ObservedNote(value)] + Map(WarnNote, warnReasons) + Map(InfoNote, infoNotes));
  }
}
