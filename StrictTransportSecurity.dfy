/**
 * The Strict-Transport-Security rule: `max-age` tiers, `includeSubDomains`, and
 * `preload` as information only.
 */
module StrictTransportSecurityParser {
  import opened Wrappers
  import opened Seqs
  import opened Strings
  import opened HeaderParser

  const HeaderName: string := "strict-transport-security"

  const OneDay: nat := 86400
  const SixMonths: nat := 15552000
  const OneYear: nat := 31536000

  /** What `parseMaxAge` yields: `null`, `NaN`, or a number of seconds. */
  datatype MaxAge = NoDirective | Unparsable | Seconds(seconds: nat)

  datatype Reason =
    | MissingMaxAge
    | UnparsableMaxAge
    | NonPositiveMaxAge
    | BelowOneDay
    | BelowSixMonths
    | BelowOneYear
    | NoIncludeSubDomains
    | PreloadPresent

  datatype Note =
    | MissingNote
    | ObservedNote(value: string)
    | Failure(reason: Reason)
    | Warning(reason: Reason)
    | Information(reason: Reason)
    | SuccessNote

  function ReasonText(r: Reason): string
  {
    match r
    case MissingMaxAge => "Missing max-age directive; browsers ignore the header without it."
    case UnparsableMaxAge => "Unable to parse max-age value; ensure it is an integer in seconds."
    case NonPositiveMaxAge => "max-age is set to zero or negative; this disables HSTS."
    case BelowOneDay => "max-age below 86400 seconds; HSTS expires too quickly to be effective."
    case BelowSixMonths => "max-age below 6 months; consider increasing to at least 6 months."
    case BelowOneYear => "max-age below 1 year; browsers may drop HSTS between visits."
    case NoIncludeSubDomains => "includeSubDomains missing; sub-domains remain vulnerable to downgrade attacks."
    case PreloadPresent => "preload flag present; ensure domain is registered in the HSTS preload list."
  }

  function Text(n: Note): string
  {
    match n
    case MissingNote => "Strict-Transport-Security header missing; HTTPS downgrade protection disabled."
    case ObservedNote(v) => "Observed HSTS: " + v
    case Failure(r) => FailMark + ReasonText(r)
    case Warning(r) => WarnMark + ReasonText(r)
    case Information(r) => InfoMark + ReasonText(r)
    case SuccessNote => OkMark + "Long-lived HSTS with includeSubDomains provides strong downgrade protection."
  }

  function FailNote(r: Reason): Note { Failure(r) }
  function WarnNote(r: Reason): Note { Warning(r) }
  function InfoNote(r: Reason): Note { Information(r) }

  /** `parseDirectives`: split on `;`, trim, drop the empty parts, lower-case. */
  function ParseDirectives(value: string): (directives: seq<string>)
    ensures |directives| <= |Split(value, ';')|
  {
    Map(ToLower, Filter(IsNonEmpty, Map(Trim, Split(value, ';'))))
  }

  lemma LoweredPart(part: string)
    requires Trim(part) != ""
    ensures var d := ToLower(Trim(part)); d != "" && ToLower(d) == d && Trim(d) == d
  {
    ToLowerIdempotent(Trim(part));
    TrimIdempotent(part);
    ToLowerTrim(Trim(part));
  }

  /** Every directive is a non-empty, lower-case, trimmed part of the value. */
  lemma DirectivesCleaned(value: string)
    ensures forall d :: d in ParseDirectives(value) ==> d != "" && ToLower(d) == d && Trim(d) == d
  {
    var parts := Split(value, ';');
    var kept := Filter(IsNonEmpty, Map(Trim, parts));
    var directives := ParseDirectives(value);
    forall d | d in directives
      ensures d != "" && ToLower(d) == d && Trim(d) == d
    {
      var i :| 0 <= i < |directives| && directives[i] == d;
      assert d == ToLower(kept[i]);
      var k :| 0 <= k < |parts| && Map(Trim, parts)[k] == kept[i];
      LoweredPart(parts[k]);
    }
  }

  /** Every part of the value that is not blank yields a directive. */
  lemma DirectivesKept(value: string)
    ensures forall k :: 0 <= k < |Split(value, ';')| && Trim(Split(value, ';')[k]) != "" ==>
              ToLower(Trim(Split(value, ';')[k])) in ParseDirectives(value)
  {
    var parts := Split(value, ';');
    var kept := Filter(IsNonEmpty, Map(Trim, parts));
    forall k | 0 <= k < |parts| && Trim(parts[k]) != ""
      ensures ToLower(Trim(parts[k])) in ParseDirectives(value)
    {
      assert Map(Trim, parts)[k] == Trim(parts[k]);
      var j :| 0 <= j < |kept| && kept[j] == Trim(parts[k]);
      assert ParseDirectives(value)[j] == ToLower(Trim(parts[k]));
    }
  }

  // ---------------------------------------------------------------- max-age

  /** `directives.find(d => d.startsWith(prefix))` */
  function FindWithPrefix(directives: seq<string>, prefix: string): (found: Option<string>)
    ensures found.Some? ==> prefix <= found.value
  {
    if |directives| == 0 then None
    else if prefix <= directives[0] then Some(directives[0])
    else FindWithPrefix(directives[1..], prefix)
  }

  /** `find` yields the first directive with the prefix, and nothing when there is none. */
  lemma {:induction false} FindWithPrefixFirst(directives: seq<string>, prefix: string)
    ensures FindWithPrefix(directives, prefix).None? <==> forall i :: 0 <= i < |directives| ==> !(prefix <= directives[i])
    ensures FindWithPrefix(directives, prefix).Some? ==>
      exists i :: 0 <= i < |directives| && directives[i] == FindWithPrefix(directives, prefix).value
        && (forall j :: 0 <= j < i ==> !(prefix <= directives[j]))
  {
    if |directives| > 0 && !(prefix <= directives[0]) {
      FindWithPrefixFirst(directives[1..], prefix);
      var found := FindWithPrefix(directives, prefix);
      if found.Some? {
        var i :| 0 <= i < |directives[1..]| && directives[1..][i] == found.value
          && forall j :: 0 <= j < i ==> !(prefix <= directives[1..][j]);
        assert directives[i + 1] == found.value;
      } else {
        forall i | 0 <= i < |directives|
          ensures !(prefix <= directives[i])
        {
          if i > 0 {
            assert directives[i] == directives[1..][i - 1];
          }
        }
      }
    }
  }

  /**
   * The regex `max-age\s*=\s*("?)(\d+)\1` tried at the start of `s`: the number in
   * the digit group when it matches.
   */
  function MatchHere(s: string): Option<nat>
  {
    if "max-age" <= s then MatchEquals(TrimStart(s[7..])) else None
  }

  /** `=\s*("?)(\d+)\1` after the name and its white space. */
  function MatchEquals(t: string): Option<nat>
  {
    if |t| > 0 && t[0] == '=' then MatchNumber(TrimStart(t[1..])) else None
  }

  /**
   * `("?)(\d+)\1` after the `=` and its white space: an opening `"` must be closed
   * right after the digits; without one, any digit run matches.
   */
  function MatchNumber(u: string): Option<nat>
  {
    if |u| > 0 && u[0] == '"' then
      var d := LeadingDigits(u[1..]);
      if 0 < |d| < |u| - 1 && u[1 + |d|] == '"' then Some(DigitsValue(d)) else None
    else
      var d := LeadingDigits(u);
      if |d| > 0 then Some(DigitsValue(d)) else None
  }

  /** `s.match(regex)` for the unanchored regex: the leftmost position from `k` on where it matches. */
  function MatchFrom(s: string, k: nat): Option<nat>
    requires k <= |s|
    decreases |s| - k
  {
    var here := MatchHere(s[k..]);
    if here.Some? then here
    else if k == |s| then None
    else MatchFrom(s, k + 1)
  }

  /** What the regex search makes of the directive `parseMaxAge` found. */
  function MaxAgeOf(directive: string): MaxAge
  {
    match MatchFrom(directive, 0)
    case None => Unparsable
    case Some(n) => Seconds(n)
  }

  /** `parseMaxAge` */
  function ParseMaxAge(directives: seq<string>): (m: MaxAge)
  {
    var found := FindWithPrefix(directives, "max-age");
    if found.None? then NoDirective else MaxAgeOf(found.value)
  }

  /** The search finds nothing exactly when the pattern matches at no position. */
  lemma {:induction false} MatchFromNone(s: string, k: nat)
    requires k <= |s|
    ensures MatchFrom(s, k).None? <==> forall j :: k <= j <= |s| ==> MatchHere(s[j..]).None?
    decreases |s| - k
  {
    if MatchHere(s[k..]).None? && k < |s| {
      MatchFromNone(s, k + 1);
      assert MatchFrom(s, k) == MatchFrom(s, k + 1);
      if MatchFrom(s, k + 1).None? {
        forall j | k <= j <= |s|
          ensures MatchHere(s[j..]).None?
        {
          if j > k {
            assert k + 1 <= j <= |s|;
          }
        }
      }
    }
  }

  /** A found match is the one at the leftmost position where the pattern matches. */
  lemma {:induction false} MatchFromLeftmost(s: string, k: nat)
    requires k <= |s| && MatchFrom(s, k).Some?
    ensures exists j :: k <= j <= |s| && MatchHere(s[j..]) == MatchFrom(s, k)
                        && (forall i :: k <= i < j ==> MatchHere(s[i..]).None?)
    decreases |s| - k
  {
    if MatchHere(s[k..]).None? {
      assert k < |s| && MatchFrom(s, k) == MatchFrom(s, k + 1);
      MatchFromLeftmost(s, k + 1);
      var j :| k + 1 <= j <= |s| && MatchHere(s[j..]) == MatchFrom(s, k)
        && forall i :: k + 1 <= i < j ==> MatchHere(s[i..]).None?;
      forall i | k <= i < j
        ensures MatchHere(s[i..]).None?
      {
        if i > k {
          assert k + 1 <= i < j;
        }
      }
    } else {
      assert MatchHere(s[k..]) == MatchFrom(s, k);
    }
  }

  /**
   * `max-age` is `NoDirective` exactly when no directive starts with `max-age`;
   * otherwise the first directive that does decides it alone.
   */
  lemma ParseMaxAgeFirst(directives: seq<string>)
    ensures ParseMaxAge(directives) == NoDirective <==>
      forall i :: 0 <= i < |directives| ==> !("max-age" <= directives[i])
    ensures ParseMaxAge(directives) != NoDirective ==>
      exists i :: 0 <= i < |directives| && "max-age" <= directives[i]
        && (forall j :: 0 <= j < i ==> !("max-age" <= directives[j]))
        && ParseMaxAge(directives) == MaxAgeOf(directives[i])
  {
    FindWithPrefixFirst(directives, "max-age");
  }

  /** The failure the `max-age` chain pushes, if any. */
  function MaxAgeFails(m: MaxAge): (fails: seq<Reason>)
    ensures |fails| <= 1
    ensures |fails| == 1 <==> !m.Seconds? || m.seconds < OneDay
  {
    match m
    case NoDirective => [MissingMaxAge]
    case Unparsable => [UnparsableMaxAge]
    case Seconds(n) => if n <= 0 then [NonPositiveMaxAge] else if n < OneDay then [BelowOneDay] else []
  }

  /** The warning the `max-age` chain pushes, if any. */
  function MaxAgeWarns(m: MaxAge): (warns: seq<Reason>)
    ensures |warns| <= 1
    ensures |warns| == 1 <==> m.Seconds? && OneDay <= m.seconds < OneYear
  {
    match m
    case Seconds(n) =>
      if n <= 0 || n < OneDay then [] else if n < SixMonths then [BelowSixMonths] else if n < OneYear then [BelowOneYear] else []
    case _ => []
  }

  // ---------------------------------------------------------------- verdict

  /** `multiplier`: 1 for pass, 0.6 for partial, 0 otherwise. */
  function Multiplier(s: Status): real
  {
    if s == Pass then 1.0 else if s == Partial then 0.6 else 0.0
  }

  /**
   * The rule once `maxAge`, `includeSubDomains` and `preload` are known, for the
   * present header `value`, with notes still symbolic.
   */
  function DecideFrom(maxAge: MaxAge, includeSubDomains: bool, preload: bool, value: string, weight: real)
    : (r: Evaluation<Note>)
  {
    var fails := MaxAgeFails(maxAge);
    var warns := MaxAgeWarns(maxAge) + (if includeSubDomains then [] else [NoIncludeSubDomains]);
    var infos := if preload then [PreloadPresent] else [];
    var status := Severity(fails, warns);
    var notes := [ObservedNote(value)] + Map(FailNote, fails) + Map(WarnNote, warns) + Map(InfoNote, infos);
    Evaluation(weight * Multiplier(status), status,
      if |fails| == 0 && |warns| == 0 then notes + [SuccessNote] else notes)
  }

  /** The rule for a present `value` whose directive list is `directives`. */
  function Decide(directives: seq<string>, value: string, weight: real): (r: Evaluation<Note>)
  {
    DecideFrom(ParseMaxAge(directives), "includesubdomains" in directives, "preload" in directives, value, weight)
  }

  /** The rule as a whole, with notes still symbolic. */
  function Assess(value: Option<string>, weight: real): (r: Evaluation<Note>)
    ensures Sound(value, weight, r)
    ensures !Absent(value) ==> r == Decide(ParseDirectives(value.value), value.value, weight)
  {
    if Absent(value) then Evaluation(0.0, Missing, [MissingNote])
    else
      DecideJudged(ParseDirectives(value.value), value.value, weight);
      Decide(ParseDirectives(value.value), value.value, weight)
  }

  /** Every present value gets a verdict, a note and a credit within the weight. */
  lemma DecideJudged(directives: seq<string>, value: string, weight: real)
    ensures Judged(weight, Decide(directives, value, weight))
  {
  }

  /**
   * The verdict: `fail` with no credit when `max-age` is absent, unparsable or below
   * a day; otherwise `partial` with 0.6 of the weight when it is below a year or
   * `includeSubDomains` is missing; otherwise `pass` with the full weight. `preload`
   * plays no part.
   */
  lemma Verdict(maxAge: MaxAge, includeSubDomains: bool, preload: bool, value: string, weight: real)
    ensures var r := DecideFrom(maxAge, includeSubDomains, preload, value, weight);
      && (r.status == Fail <==> !maxAge.Seconds? || maxAge.seconds < OneDay)
      && (r.status == Partial <==>
            maxAge.Seconds? && OneDay <= maxAge.seconds && (maxAge.seconds < OneYear || !includeSubDomains))
      && (r.status == Pass <==> maxAge.Seconds? && OneYear <= maxAge.seconds && includeSubDomains)
      && r.scoreDelta == weight * Multiplier(r.status)
  {
  }

  /** `preload` adds an information note and never changes status or credit. */
  lemma PreloadOnlyInforms(maxAge: MaxAge, includeSubDomains: bool, value: string, weight: real)
    ensures DecideFrom(maxAge, includeSubDomains, true, value, weight).status
         == DecideFrom(maxAge, includeSubDomains, false, value, weight).status
    ensures DecideFrom(maxAge, includeSubDomains, true, value, weight).scoreDelta
         == DecideFrom(maxAge, includeSubDomains, false, value, weight).scoreDelta
    ensures Information(PreloadPresent) in DecideFrom(maxAge, includeSubDomains, true, value, weight).notes
  {
    var r := DecideFrom(maxAge, includeSubDomains, true, value, weight);
    var fails := MaxAgeFails(maxAge);
    var warns := MaxAgeWarns(maxAge) + (if includeSubDomains then [] else [NoIncludeSubDomains]);
    var k := 1 + |fails| + |warns|;
    assert r.notes[k] == Information(PreloadPresent);
  }

  /**
   * The notes open with the observed value; the success line is there exactly when
   * nothing was complained about, and it comes last.
   */
  lemma Notes(maxAge: MaxAge, includeSubDomains: bool, preload: bool, value: string, weight: real)
    ensures var r := DecideFrom(maxAge, includeSubDomains, preload, value, weight);
      && r.notes[0] == ObservedNote(value)
      && (SuccessNote in r.notes <==> r.status == Pass)
      && (r.status == Pass ==> r.notes[|r.notes| - 1] == SuccessNote)
  {
    var fails := MaxAgeFails(maxAge);
    var warns := MaxAgeWarns(maxAge) + (if includeSubDomains then [] else [NoIncludeSubDomains]);
    var infos := if preload then [PreloadPresent] else [];
    var a := Map(FailNote, fails);
    var b := Map(WarnNote, warns);
    var c := Map(InfoNote, infos);
    var body := [ObservedNote(value)] + a + b + c;
    forall i | 0 <= i < |body|
      ensures body[i] != SuccessNote
    {
      if i == 0 {
      } else if i <= |a| {
        assert body[i] == a[i - 1];
      } else if i <= |a| + |b| {
        assert body[i] == b[i - 1 - |a|];
      } else {
        assert body[i] == c[i - 1 - |a| - |b|];
      }
    }
  }

  // ---------------------------------------------------------------- evaluate

  /** `evaluate`: pushes the reasons one by one as the rule does, then renders the notes. */
  method Evaluate(value: Option<string>, context: HeaderParserContext) returns (r: HeaderEvaluation)
    ensures r == Render(Assess(value, context.weight), Text)
    ensures Sound(value, context.weight, r)
  {
    var e: Evaluation<Note>;
    if Absent(value) {
      e := Evaluation(0.0, Missing, [MissingNote]);
    } else {
      var directives := ParseDirectives(value.value);
      var maxAge := ParseMaxAge(directives);
      var includeSubDomains := "includesubdomains" in directives;
      var preload := "preload" in directives;
      e := EvaluateFindings(maxAge, includeSubDomains, preload, value.value, context.weight);
    }
    r := Render(e, Text);
  }

  /** `evaluate` once `max-age`, `includeSubDomains` and `preload` are known: the reason and note pushes. */
  method EvaluateFindings(maxAge: MaxAge, includeSubDomains: bool, preload: bool, value: string, weight: real)
    returns (e: Evaluation<Note>)
    ensures e == DecideFrom(maxAge, includeSubDomains, preload, value, weight)
  {
    var failReasons, warnReasons := MaxAgeReasons(maxAge);
    var infoNotes: seq<Reason> := [];
    if !includeSubDomains {
      warnReasons := warnReasons + [NoIncludeSubDomains];
    }
    if preload {
      infoNotes := infoNotes + [PreloadPresent];
    }

    var status := Severity(failReasons, warnReasons);
    var multiplier := Multiplier(status);
    var notes := [ObservedNote(value)] + Map(FailNote, failReasons) + Map(WarnNote, warnReasons)
      + Map(InfoNote, infoNotes);
    if |failReasons| == 0 && |warnReasons| == 0 {
      notes := notes + [SuccessNote];
    }
    e := Evaluation(weight * multiplier, status, notes);
  }

  /** The `max-age` if-chain of `evaluate`, pushing onto empty reason lists. */
  method MaxAgeReasons(maxAge: MaxAge) returns (failReasons: seq<Reason>, warnReasons: seq<Reason>)
    ensures failReasons == MaxAgeFails(maxAge) && warnReasons == MaxAgeWarns(maxAge)
  {
    failReasons := [];
    warnReasons := [];
    match maxAge {
      case NoDirective =>
        failReasons := failReasons + [MissingMaxAge];
      case Unparsable =>
        failReasons := failReasons + [UnparsableMaxAge];
      case Seconds(n) =>
        if n <= 0 {
          failReasons := failReasons + [NonPositiveMaxAge];
        } else if n < OneDay {
          failReasons := failReasons + [BelowOneDay];
        } else if n < SixMonths {
          warnReasons := warnReasons + [BelowSixMonths];
        } else if n < OneYear {
          warnReasons := warnReasons + [BelowOneYear];
        }
    }
  }

  lemma DigitsExample()
    ensures DigitsValue("63072000") == 63072000
  {
    assert DigitsValue("6") == 6;
    assert "63"[..1] == "6";
    assert DigitsValue("63") == 63;
    assert "630"[..2] == "63";
    assert DigitsValue("630") == 630;
    assert "6307"[..3] == "630";
    assert DigitsValue("6307") == 6307;
    assert "63072"[..4] == "6307";
    assert DigitsValue("63072") == 63072;
    assert "630720"[..5] == "63072";
    assert DigitsValue("630720") == 630720;
    assert "6307200"[..6] == "630720";
    assert DigitsValue("6307200") == 6307200;
    assert "63072000"[..7] == "6307200";
    assert DigitsValue("63072000") == 63072000;
  }

  /** White space skipping stops at once on anything else. */
  lemma TrimStartNone(s: string)
    requires |s| > 0 && !IsWhitespace(s[0])
    ensures TrimStart(s) == s
  {
  }

  /** After the directive name the match goes on past its white space. */
  lemma MatchName(t: string)
    ensures MatchHere("max-age" + t) == MatchEquals(TrimStart(t))
  {
    assert ("max-age" + t)[7..] == t;
  }

  /** After the `=` the match goes on past its white space. */
  lemma MatchEqualsSign(u: string)
    ensures MatchEquals("=" + u) == MatchNumber(TrimStart(u))
  {
    assert ("=" + u)[1..] == u;
  }

  /** A bare digit run is a number. */
  lemma MatchBareNumber(d: string)
    requires |d| > 0 && AllDigits(d)
    ensures MatchNumber(d) == Some(DigitsValue(d))
  {
    LeadingDigitsOf(d, "");
    assert d + "" == d;
  }

  /** A digit run between double quotes is a number. */
  lemma MatchQuotedNumber(d: string)
    requires |d| > 0 && AllDigits(d)
    ensures MatchNumber("\"" + d + "\"") == Some(DigitsValue(d))
  {
    var q := "\"" + d + "\"";
    assert q[1..] == d + "\"";
    LeadingDigitsOf(d, "\"");
    assert q[1 + |d|] == '"';
  }

  /** With no white space around `=`, the match comes down to the number after it. */
  lemma MatchAfterEquals(x: string)
    requires |x| > 0 && !IsWhitespace(x[0])
    ensures MatchHere("max-age" + ("=" + x)) == MatchNumber(x)
  {
    MatchName("=" + x);
    TrimStartNone("=" + x);
    MatchEqualsSign(x);
    TrimStartNone(x);
  }

  /** `max-age=<digits>` matches at its start and yields the digits' value. */
  lemma MatchPlain(d: string)
    requires |d| > 0 && AllDigits(d)
    ensures MatchHere("max-age=" + d) == Some(DigitsValue(d))
  {
    assert "max-age=" + d == "max-age" + ("=" + d);
    MatchAfterEquals(d);
    MatchBareNumber(d);
  }

  /** `max-age="<digits>"` matches too: the quote is closed right after the digits. */
  lemma MatchQuoted(d: string)
    requires |d| > 0 && AllDigits(d)
    ensures MatchHere("max-age=\"" + d + "\"") == Some(DigitsValue(d))
  {
    var q := "\"" + d + "\"";
    assert "max-age=\"" + d + "\"" == "max-age" + ("=" + q);
    MatchAfterEquals(q);
    MatchQuotedNumber(d);
  }

  /** A list led by `max-age=<digits>` takes its `max-age` from that directive. */
  lemma LeadingMaxAge(d: string, rest: seq<string>)
    requires |d| > 0 && AllDigits(d)
    ensures ParseMaxAge(["max-age=" + d] + rest) == Seconds(DigitsValue(d))
  {
    var s := "max-age=" + d;
    assert "max-age" <= s;
    assert s[0..] == s;
    MatchPlain(d);
  }

  /**
   * A list led by `max-age=<digits>` of at least a year and holding
   * `includesubdomains` passes with the full weight.
   */
  lemma StrongPolicyPasses(d: string, rest: seq<string>, value: string, weight: real)
    requires |d| > 0 && AllDigits(d) && OneYear <= DigitsValue(d)
    requires "includesubdomains" in rest
    ensures var r := Decide(["max-age=" + d] + rest, value, weight);
      r.status == Pass && r.scoreDelta == weight
  {
    var directives := ["max-age=" + d] + rest;
    LeadingMaxAge(d, rest);
    assert "includesubdomains" in directives by {
      var k :| 0 <= k < |rest| && rest[k] == "includesubdomains";
      assert directives[k + 1] == rest[k];
    }
    Verdict(Seconds(DigitsValue(d)), true, "preload" in directives, value, weight);
  }

  /** The recommended two-year header passes. */
  lemma TwoYearsPasses(value: string, weight: real)
    ensures
      var r := Decide(["max-age=63072000", "includesubdomains", "preload"], value, weight);
      r.status == Pass && r.scoreDelta == weight
  {
    DigitsExample();
    assert "max-age=" + "63072000" == "max-age=63072000";
    var rest := ["includesubdomains", "preload"];
    assert rest[0] == "includesubdomains";
    assert ["max-age=63072000", "includesubdomains", "preload"] == ["max-age=" + "63072000"] + rest;
    StrongPolicyPasses("63072000", rest, value, weight);
  }
}
