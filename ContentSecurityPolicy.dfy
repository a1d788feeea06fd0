/**
 * The Content-Security-Policy rule. The policy is cut into directives (a map from
 * directive name to its normalized source tokens); seven sections then judge
 * default-src, script-src, object-src, base-uri, frame-ancestors, mixed-content
 * handling and reporting. Each section pushes fail, warning or information reasons
 * and adds one weighted sub-score to a tracker; the credit is the rule's weight times
 * the tracker's weighted mean.
 */
module ContentSecurityPolicyParser {
  import opened Wrappers
  import opened Seqs
  import opened Strings
  import opened HeaderParser

  const HeaderName: string := "content-security-policy"

  // ---------------------------------------------------------------- directives

  /** `normalizeToken`: trim, drop one leading and one trailing `'`, lower-case. */
  function NormalizeToken(token: string): string
  {
    ToLower(StripQuotes(Trim(token), '\''))
  }

  /** The directives `extractDirectives` walks: split on `;`, trimmed, empty ones dropped. */
  function DirectiveList(value: string): seq<string>
  {
    Filter(IsNonEmpty, Map(Trim, Split(value, ';')))
  }

  /** The `name` of `const [name, ...rest] = directive.split(/\s+/)`. */
  function DirectiveName(directive: string): string
  {
    SplitWhitespace(directive)[0]
  }

  /** `rest.map(normalizeToken).filter(Boolean)` */
  function DirectiveTokens(directive: string): seq<string>
  {
    Filter(IsNonEmpty, Map(NormalizeToken, SplitWhitespace(directive)[1..]))
  }

  /** What one directive contributes to the map: its lower-cased name and its tokens. */
  datatype Entry = Entry(name: string, tokens: seq<string>)

  /** The entry a directive yields; none when its name is empty (the loop's `continue`). */
  function EntryOf(directive: string): Option<Entry>
  {
    var name := DirectiveName(directive);
    if name == "" then None else Some(Entry(ToLower(name), DirectiveTokens(directive)))
  }

  /** The entry is recorded under `name`. */
  predicate Names(entry: Option<Entry>, name: string)
  {
    entry.Some? && entry.value.name == name
  }

  type Directives = map<string, seq<string>>

  /** The map once the loop has seen `entries`; a later entry overwrites an earlier one. */
  function Collect(entries: seq<Option<Entry>>): Directives
  {
    if |entries| == 0 then map[]
    else
      var m := Collect(entries[..|entries| - 1]);
      var e := entries[|entries| - 1];
      if e.None? then m else m[e.value.name := e.value.tokens]
  }

  /** What `extractDirectives(value)` returns. */
  function DirectiveMap(value: string): Directives
  {
    Collect(Map(EntryOf, DirectiveList(value)))
  }

  /** `extractDirectives`: splits the policy, then fills the map directive by directive. */
  method ExtractDirectives(value: string) returns (m: Directives)
    ensures m == DirectiveMap(value)
  {
    var directives := DirectiveList(value);
    m := FillDirectives(directives);
  }

  /** The `for` loop of `extractDirectives`. */
  method FillDirectives(directives: seq<string>) returns (m: Directives)
    ensures m == Collect(Map(EntryOf, directives))
  {
    ghost var entries := Map(EntryOf, directives);
    m := map[];
    for i := 0 to |directives|
      invariant m == Collect(entries[..i])
    {
      assert entries[..i + 1][..i] == entries[..i];
      assert entries[i] == EntryOf(directives[i]);
      var parts := SplitWhitespace(directives[i]);
      var name := parts[0];
      if name == "" {
        continue;
      }
      var normalizedName := ToLower(name);
      var tokens := Filter(IsNonEmpty, Map(NormalizeToken, parts[1..]));
      m := m[normalizedName := tokens];
    }
    assert entries[..|directives|] == entries;
  }

  /** A directive is in the map exactly when some entry names it. */
  lemma {:induction false} CollectKeys(entries: seq<Option<Entry>>, name: string)
    ensures name in Collect(entries) <==> exists i :: 0 <= i < |entries| && Names(entries[i], name)
    decreases |entries|
  {
    if |entries| > 0 {
      var n := |entries| - 1;
      var init := entries[..n];
      CollectKeys(init, name);
      if exists i :: 0 <= i < n && Names(init[i], name) {
        var i :| 0 <= i < n && Names(init[i], name);
        assert entries[i] == init[i];
      }
      if exists i :: 0 <= i < |entries| && Names(entries[i], name) {
        var i :| 0 <= i < |entries| && Names(entries[i], name);
        if i < n {
          assert init[i] == entries[i];
        }
      }
    }
  }

  /**
   * A repeated directive keeps the tokens of its last occurrence: the recorded tokens
   * are those of an entry naming it after which no entry names it again.
   */
  lemma {:induction false} LastOccurrenceWins(entries: seq<Option<Entry>>, name: string)
    requires name in Collect(entries)
    ensures exists i :: 0 <= i < |entries| && Names(entries[i], name)
                        && Collect(entries)[name] == entries[i].value.tokens
                        && (forall j :: i < j < |entries| ==> !Names(entries[j], name))
    decreases |entries|
  {
    var n := |entries| - 1;
    var init := entries[..n];
    if !Names(entries[n], name) {
      assert name in Collect(init) && Collect(entries)[name] == Collect(init)[name];
      LastOccurrenceWins(init, name);
      var i :| 0 <= i < n && Names(init[i], name)
               && Collect(init)[name] == init[i].value.tokens
               && (forall j :: i < j < n ==> !Names(init[j], name));
      assert entries[i] == init[i];
      forall j | i < j < |entries|
        ensures !Names(entries[j], name)
      {
        if j < n {
          assert entries[j] == init[j];
        }
      }
    }
  }

  /** An entry is normalized: lower-case name, non-empty lower-case tokens. */
  predicate NormalEntry(entry: Option<Entry>)
  {
    entry.Some? ==> ToLower(entry.value.name) == entry.value.name && NormalTokens(entry.value.tokens)
  }

  /** Non-empty lower-case tokens. */
  predicate NormalTokens(tokens: seq<string>)
  {
    forall t :: t in tokens ==> t != "" && ToLower(t) == t
  }

  /** A normalized token is already lower-case. */
  lemma NormalizeTokenLower(token: string)
    ensures ToLower(NormalizeToken(token)) == NormalizeToken(token)
  {
    ToLowerIdempotent(StripQuotes(Trim(token), '\''));
  }

  /** The kept tokens are non-empty and lower-case. */
  lemma TokensNormal(pieces: seq<string>)
    ensures NormalTokens(Filter(IsNonEmpty, Map(NormalizeToken, pieces)))
  {
    var parts := Map(NormalizeToken, pieces);
    forall t | t in Filter(IsNonEmpty, parts)
      ensures t != "" && ToLower(t) == t
    {
      var k :| 0 <= k < |parts| && parts[k] == t;
      NormalizeTokenLower(pieces[k]);
    }
  }

  /** Every directive yields a normalized entry. */
  lemma EntryNormal(directive: string)
    ensures NormalEntry(EntryOf(directive))
  {
    if DirectiveName(directive) != "" {
      ToLowerIdempotent(DirectiveName(directive));
      TokensNormal(SplitWhitespace(directive)[1..]);
    }
  }

  /** Lower-case names, each with non-empty lower-case tokens. */
  predicate NormalMap(m: Directives)
  {
    forall name :: name in m ==> ToLower(name) == name && NormalTokens(m[name])
  }

  /** A map built from normalized entries is normalized. */
  lemma {:induction false} CollectNormal(entries: seq<Option<Entry>>)
    requires forall i :: 0 <= i < |entries| ==> NormalEntry(entries[i])
    ensures NormalMap(Collect(entries))
    decreases |entries|
  {
    if |entries| > 0 {
      var n := |entries| - 1;
      var e := entries[n];
      assert NormalEntry(e);
      CollectNormal(entries[..n]);
      var init := Collect(entries[..n]);
      if e.Some? {
        var m := init[e.value.name := e.value.tokens];
        assert Collect(entries) == m;
        forall name | name in m
          ensures ToLower(name) == name && NormalTokens(m[name])
        {
          if name != e.value.name {
            assert name in init;
          }
        }
      }
    }
  }

  /** The map the loop builds is normalized. */
  lemma FilledNormal(directives: seq<string>)
    ensures NormalMap(Collect(Map(EntryOf, directives)))
  {
    var entries := Map(EntryOf, directives);
    forall i | 0 <= i < |entries|
      ensures NormalEntry(entries[i])
    {
      EntryNormal(directives[i]);
    }
    CollectNormal(entries);
  }

  /** The names in `extractDirectives`' map are lower-case; its tokens are non-empty and lower-case. */
  lemma DirectivesNormalized(value: string)
    ensures NormalMap(DirectiveMap(value))
  {
    FilledNormal(DirectiveList(value));
  }

  /** A trimmed, non-empty directive has a non-empty name, so the loop never skips one. */
  lemma NameNonEmpty(directive: string)
    requires |directive| > 0 && !IsWhitespace(directive[0])
    ensures DirectiveName(directive) != ""
  {
  }

  /** Every part the loop walks is trimmed and non-empty. */
  lemma DirectiveListTrimmed(value: string)
    ensures forall d :: d in DirectiveList(value) ==> |d| > 0 && !IsWhitespace(d[0])
  {
    var parts := Map(Trim, Split(value, ';'));
    forall d | d in DirectiveList(value)
      ensures |d| > 0 && !IsWhitespace(d[0])
    {
      var k :| 0 <= k < |parts| && parts[k] == d;
    }
  }

  /** `directives.get(name)` */
  function Get(directives: Directives, name: string): (r: Option<seq<string>>)
    ensures r.Some? <==> name in directives
    ensures r.Some? ==> r.value == directives[name]
  {
    if name in directives then Some(directives[name]) else None
  }

  /** `directives.get('script-src') ?? defaultSrc` */
  function ScriptSrc(directives: Directives): Option<seq<string>>
  {
    if "script-src" in directives then Some(directives["script-src"]) else Get(directives, "default-src")
  }

  // ---------------------------------------------------------------- token tests

  predicate IncludesWildcard(tokens: seq<string>) { "*" in tokens }

  predicate IncludesInsecureScheme(tokens: seq<string>) { "http:" in tokens }

  predicate IncludesBroadHttps(tokens: seq<string>) { "https:" in tokens }

  predicate IncludesUnsafeInline(tokens: seq<string>) { "unsafe-inline" in tokens }

  predicate IncludesUnsafeEval(tokens: seq<string>) { "unsafe-eval" in tokens }

  predicate IncludesDataOrBlob(tokens: seq<string>) { "data:" in tokens || "blob:" in tokens }

  /** Some token is a nonce or a SHA-256/384/512 hash source. */
  predicate HasNonceOrHash(tokens: seq<string>)
  {
    exists i :: 0 <= i < |tokens| &&
      ("nonce-" <= tokens[i] || "sha256-" <= tokens[i] || "sha384-" <= tokens[i] || "sha512-" <= tokens[i])
  }

  // ---------------------------------------------------------------- score tracker

  /** One `addComponent` call: a sub-score (clamped when added) and its weight. */
  datatype Component = Component(score: real, weight: real)

  /** `clamp(value)`: `Math.min(Math.max(value, 0), 1)`. */
  function Clamp(value: real): (c: real)
    ensures 0.0 <= c <= 1.0
    ensures 0.0 <= value <= 1.0 ==> c == value
    ensures value < 0.0 ==> c == 0.0
    ensures 1.0 < value ==> c == 1.0
  {
    var low := if value > 0.0 then value else 0.0;
    if low < 1.0 then low else 1.0
  }

  /** `componentScore * weight`: what one component adds to `earned`. */
  function Credit(c: Component): real
  {
    Clamp(c.score) * c.weight
  }

  /** A component with a non-negative weight earns between 0 and its weight. */
  lemma CreditWithin(c: Component)
    requires c.weight >= 0.0
    ensures 0.0 <= Credit(c) <= c.weight
  {
    var k := Clamp(c.score);
    ScaleWithin(k, c.weight);
    assert Credit(c) == k * c.weight;
  }

  /** The weighted clamped sub-scores added so far. */
  function Earned(components: seq<Component>): real
  {
    if |components| == 0 then 0.0
    else
      Earned(components[..|components| - 1]) + Credit(components[|components| - 1])
  }

  /** The weights added so far. */
  function Maximum(components: seq<Component>): real
  {
    if |components| == 0 then 0.0
    else Maximum(components[..|components| - 1]) + components[|components| - 1].weight
  }

  /** Adding one component raises the earned total by its credit and the maximum by its weight. */
  lemma AddedOnce(components: seq<Component>, c: Component)
    ensures Earned(components + [c]) == Earned(components) + Clamp(c.score) * c.weight
    ensures Maximum(components + [c]) == Maximum(components) + c.weight
  {
    assert (components + [c])[..|components|] == components;
  }

  /** What `finalize` returns: the weighted mean, or 0 when nothing was weighed. */
  function Ratio(components: seq<Component>): real
  {
    if Maximum(components) == 0.0 then 0.0 else Earned(components) / Maximum(components)
  }

  /** With non-negative weights the earned credit lies between 0 and the total weight. */
  lemma {:induction false} EarnedWithin(components: seq<Component>)
    requires forall i :: 0 <= i < |components| ==> components[i].weight >= 0.0
    ensures 0.0 <= Earned(components) <= Maximum(components)
    decreases |components|
  {
    if |components| > 0 {
      var n := |components| - 1;
      var init, last := components[..n], components[n];
      assert forall i :: 0 <= i < |init| ==> init[i].weight >= 0.0 by {
        forall i | 0 <= i < |init|
          ensures init[i].weight >= 0.0
        {
          assert init[i] == components[i];
        }
      }
      EarnedWithin(init);
      CreditWithin(last);
      assert Earned(components) == Earned(init) + Credit(last);
      assert Maximum(components) == Maximum(init) + last.weight;
    }
  }

  /** With non-negative weights the weighted mean lies in [0, 1]. */
  lemma RatioWithin(components: seq<Component>)
    requires forall i :: 0 <= i < |components| ==> components[i].weight >= 0.0
    ensures 0.0 <= Ratio(components) <= 1.0
  {
    EarnedWithin(components);
    if Maximum(components) != 0.0 {
      DivWithin(Earned(components), Maximum(components));
    }
  }

  lemma MulNonNegative(a: real, b: real)
    requires 0.0 <= a && 0.0 <= b
    ensures 0.0 <= a * b
  {
  }

  /** A fraction `r` of a non-negative `w` stays between 0 and `w`. */
  lemma ScaleWithin(r: real, w: real)
    requires 0.0 <= w && 0.0 <= r <= 1.0
    ensures 0.0 <= r * w <= w && 0.0 <= w * r <= w
  {
    MulNonNegative(r, w);
    MulNonNegative(1.0 - r, w);
    assert (1.0 - r) * w == w - r * w;
  }

  /** A part of a non-zero whole is a fraction of it. */
  lemma DivWithin(e: real, m: real)
    requires 0.0 <= e <= m && m != 0.0
    ensures 0.0 <= e / m <= 1.0
  {
    var q := e / m;
    assert q * m == e;
    if q < 0.0 {
      MulNonNegative(-q, m);
    }
    if q > 1.0 {
      MulNonNegative(q - 1.0, m);
    }
  }

  /**
   * `createScoreTracker`: the closure's `earned` and `maximum`, with the components
   * added so far kept as a ghost history.
   */
  class ScoreTracker {
    var earned: real
    var maximum: real
    ghost var components: seq<Component>

    ghost predicate Valid()
      reads this
    {
      earned == Earned(components) && maximum == Maximum(components)
    }

    constructor ()
      ensures Valid() && components == []
    {
      earned := 0.0;
      maximum := 0.0;
      components := [];
    }

    /** `addComponent` */
    method AddComponent(normalizedScore: real, weight: real)
      requires Valid()
      modifies this
      ensures Valid() && components == old(components) + [Component(normalizedScore, weight)]
    {
      var componentScore := Clamp(normalizedScore);
      earned := earned + componentScore * weight;
      maximum := maximum + weight;
      AddedOnce(components, Component(normalizedScore, weight));
      components := components + [Component(normalizedScore, weight)];
    }

    /** `finalize` */
    method Finalize() returns (r: real)
      requires Valid()
      ensures r == Ratio(components)
    {
      if maximum == 0.0 {
        return 0.0;
      }
      return earned / maximum;
    }
  }

  // ---------------------------------------------------------------- sections

  datatype Reason =
    | MissingDefaultSrc
    | DefaultWildcard
    | DefaultInsecureScheme
    | DefaultBroadHttps
    | DefaultDataOrBlob
    | ScriptUnmitigatedInline
    | ScriptMitigatedInline
    | ScriptUnsafeEval
    | ScriptWildcard
    | ScriptInsecureScheme
    | ScriptBroadHttps
    | ScriptDataOrBlob
    | ScriptSrcUndefined
    | ObjectSrcMissing
    | ObjectSrcNotNone
    | BaseUriMissing
    | BaseUriUnrestricted
    | FrameAncestorsMissing
    | FrameAncestorsBroad
    | NoMixedContentDirective
    | ReportingPresent

  function ReasonText(r: Reason): string
  {
    match r
    case MissingDefaultSrc => "Missing default-src directive; fallback allows all origins."
    case DefaultWildcard => "default-src allows wildcards or schemes (e.g., * or http:)."
    case DefaultInsecureScheme => "default-src permits http: resources, enabling downgrade attacks."
    case DefaultBroadHttps => "default-src allows any https: origin; consider narrowing to explicit hosts."
    case DefaultDataOrBlob => "default-src allows data: or blob:, which weakens isolation."
    case ScriptUnmitigatedInline => "script-src allows unsafe-inline without nonce/hash/strict-dynamic."
    case ScriptMitigatedInline => "script-src relies on unsafe-inline but mitigated by nonces/hashes."
    case ScriptUnsafeEval => "script-src allows unsafe-eval; prefer removing legacy eval usage."
    case ScriptWildcard => "script-src allows wildcards or unrestricted schemes."
    case ScriptInsecureScheme => "script-src permits http: scripts, exposing downgrade/XSS risks."
    case ScriptBroadHttps => "script-src allows any https: host; explicitly pin trusted origins."
    case ScriptDataOrBlob => "script-src allows data: or blob:, increasing XSS exposure."
    case ScriptSrcUndefined => "script-src not defined; scripts inherit default-src which may be too broad."
    case ObjectSrcMissing => "object-src not set; recommend setting to none."
    case ObjectSrcNotNone => "object-src should be explicitly set to none to block plug-in content."
    case BaseUriMissing => "base-uri not declared; attackers could inject <base> tags."
    case BaseUriUnrestricted => "base-uri should be restricted to self or none."
    case FrameAncestorsMissing => "frame-ancestors missing; clickjacking protections rely on this directive."
    case FrameAncestorsBroad => "frame-ancestors allows broad embedding (e.g., * or http:)."
    case NoMixedContentDirective =>
      "Consider upgrade-insecure-requests or block-all-mixed-content to prevent mixed content downgrades."
    case ReportingPresent => "CSP reporting detected; ensure the reporting endpoint is monitored."
  }

  /** What one section of `evaluate` pushes, and the component it adds to the tracker. */
  datatype Section = Section(fails: seq<Reason>, warns: seq<Reason>, infos: seq<Reason>, component: Component)

  /** `if (c) rs.push(r)`: a conditional push. */
  function Push(rs: seq<Reason>, c: bool, r: Reason): seq<Reason>
  {
    if c then rs + [r] else rs
  }

  /** The `default-src` section. */
  function DefaultSection(defaultSrc: Option<seq<string>>): (s: Section)
    ensures s.component.weight == 2.0
  {
    if defaultSrc.None? || |defaultSrc.value| == 0 then
      Section([MissingDefaultSrc], [], [], Component(0.0, 2.0))
    else
      var t := defaultSrc.value;
      var wildcard := IncludesWildcard(t);
      var insecureScheme := IncludesInsecureScheme(t);
      var broadHttps := IncludesBroadHttps(t);
      var dataSources := IncludesDataOrBlob(t);
      var s1 := if wildcard then 0.25 - 0.15 else 0.25 + 0.2;
      var s2 := if insecureScheme then s1 - 0.25 else s1 + 0.2;
      var s3 := if dataSources then s2 - 0.05 else s2 + 0.1;
      var lockedDown := |t| == 1 && (t[0] == "self" || t[0] == "none");
      var s4 := if lockedDown then s3 + 0.25 else if "self" in t && !wildcard && !broadHttps then s3 + 0.15 else s3;
      Section(Push(Push([], wildcard, DefaultWildcard), insecureScheme, DefaultInsecureScheme),
              Push(Push([], broadHttps, DefaultBroadHttps), dataSources, DefaultDataOrBlob),
              [], Component(s4, 2.0))
  }

  /** `script-src` allows unsafe-inline and neither a nonce, a hash nor strict-dynamic mitigates it. */
  predicate UnmitigatedInline(t: seq<string>)
  {
    IncludesUnsafeInline(t) && !(HasNonceOrHash(t) || "strict-dynamic" in t)
  }

  /** The `script-src` section, run on `script-src` or, failing that, `default-src`. */
  function ScriptSection(scriptSrc: Option<seq<string>>): (s: Section)
    ensures s.component.weight == 3.0
  {
    if scriptSrc.None? then
      Section([], [ScriptSrcUndefined], [], Component(0.25, 3.0))
    else
      var f := ScriptFlagsOf(scriptSrc.value);
      Section(ScriptFails(f), ScriptWarns(f), [], Component(ScriptScore(f), 3.0))
  }

  /** What a present `script-src` list includes, as the checks of lines 161-166 find it. */
  datatype ScriptFlags = ScriptFlags(unsafeInline: bool, unsafeEval: bool, wildcard: bool, insecureScheme: bool,
                                     broadHttps: bool, dataSources: bool, strictDynamic: bool, nonceOrHash: bool)
  {
    predicate HasMitigation() { nonceOrHash || strictDynamic }
  }

  function ScriptFlagsOf(t: seq<string>): (f: ScriptFlags)
    ensures f.unsafeInline == IncludesUnsafeInline(t) && f.unsafeEval == IncludesUnsafeEval(t)
    ensures f.wildcard == IncludesWildcard(t) && f.insecureScheme == IncludesInsecureScheme(t)
    ensures f.broadHttps == IncludesBroadHttps(t) && f.dataSources == IncludesDataOrBlob(t)
    ensures f.strictDynamic == ("strict-dynamic" in t) && f.nonceOrHash == HasNonceOrHash(t)
  {
    ScriptFlags(IncludesUnsafeInline(t), IncludesUnsafeEval(t), IncludesWildcard(t), IncludesInsecureScheme(t),
                IncludesBroadHttps(t), IncludesDataOrBlob(t), "strict-dynamic" in t, HasNonceOrHash(t))
  }

  function ScriptFails(f: ScriptFlags): seq<Reason>
  {
    Push(Push(Push([], f.unsafeInline && !f.HasMitigation(), ScriptUnmitigatedInline),
              f.wildcard, ScriptWildcard), f.insecureScheme, ScriptInsecureScheme)
  }

  function ScriptWarns(f: ScriptFlags): seq<Reason>
  {
    Push(Push(Push(Push([], f.unsafeInline && f.HasMitigation(), ScriptMitigatedInline),
                   f.unsafeEval, ScriptUnsafeEval), f.broadHttps, ScriptBroadHttps), f.dataSources, ScriptDataOrBlob)
  }

  function ScriptScore(f: ScriptFlags): real
  {
    var s1 := if f.unsafeInline && !f.HasMitigation() then 0.2 - 0.25
              else if f.unsafeInline then 0.2 + 0.05 else 0.2 + 0.2;
    var s2 := if f.unsafeEval then s1 else s1 + 0.1;
    var s3 := if f.wildcard then s2 - 0.2 else s2 + 0.15;
    var s4 := if f.insecureScheme then s3 - 0.2 else s3 + 0.1;
    var s5 := if f.dataSources then s4 else s4 + 0.05;
    var s6 := if !f.wildcard && !f.insecureScheme then s5 + 0.1 else s5;
    var s7 := if f.HasMitigation() then s6 + 0.2 else s6;
    if f.strictDynamic then s7 + 0.05 else s7
  }

  /** The `object-src` section. */
  function ObjectSection(objectSrc: Option<seq<string>>): (s: Section)
    ensures s.component.weight == 0.8
  {
    if objectSrc.None? || |objectSrc.value| == 0 then Section([], [ObjectSrcMissing], [], Component(0.25, 0.8))
    else if !(|objectSrc.value| == 1 && objectSrc.value[0] == "none") then
      Section([], [ObjectSrcNotNone], [], Component(0.5, 0.8))
    else Section([], [], [], Component(1.0, 0.8))
  }

  /** The `base-uri` section. */
  function BaseSection(baseUri: Option<seq<string>>): (s: Section)
    ensures s.component.weight == 0.8
  {
    if baseUri.None? then Section([], [BaseUriMissing], [], Component(0.0, 0.8))
    else if !(|baseUri.value| == 1 && (baseUri.value[0] == "self" || baseUri.value[0] == "none")) then
      Section([], [BaseUriUnrestricted], [], Component(0.4, 0.8))
    else Section([], [], [], Component(1.0, 0.8))
  }

  /** The `frame-ancestors` section. */
  function FrameSection(frameAncestors: Option<seq<string>>): (s: Section)
    ensures s.component.weight == 1.0
  {
    if frameAncestors.None? then Section([], [FrameAncestorsMissing], [], Component(0.3, 1.0))
    else if "*" in frameAncestors.value || "http:" in frameAncestors.value then
      Section([FrameAncestorsBroad], [], [], Component(0.1, 1.0))
    else if "none" in frameAncestors.value then Section([], [], [], Component(1.0, 1.0))
    else Section([], [], [], Component(0.8, 1.0))
  }

  /** The mixed-content section. */
  function MixedContentSection(upgrade: bool, blockAll: bool): (s: Section)
    ensures s.component.weight == 0.5
  {
    if !upgrade && !blockAll then Section([], [], [NoMixedContentDirective], Component(0.0, 0.5))
    else if upgrade then Section([], [], [], Component(1.0, 0.5))
    else Section([], [], [], Component(0.7, 0.5))
  }

  /** The reporting section. */
  function ReportingSection(hasReportDirective: bool): (s: Section)
    ensures s.component.weight == 0.3
  {
    if hasReportDirective then Section([], [], [ReportingPresent], Component(1.0, 0.3))
    else Section([], [], [], Component(0.0, 0.3))
  }

  /** The seven sections in the order `evaluate` runs them. */
  function Sections(directives: Directives): (ss: seq<Section>)
    ensures |ss| == 7
  {
    [ DefaultSection(Get(directives, "default-src")),
      ScriptSection(ScriptSrc(directives)),
      ObjectSection(Get(directives, "object-src")),
      BaseSection(Get(directives, "base-uri")),
      FrameSection(Get(directives, "frame-ancestors")),
      MixedContentSection("upgrade-insecure-requests" in directives, "block-all-mixed-content" in directives),
      ReportingSection("report-uri" in directives || "report-to" in directives) ]
  }

  function AllFails(ss: seq<Section>): seq<Reason>
  {
    if |ss| == 0 then [] else AllFails(ss[..|ss| - 1]) + ss[|ss| - 1].fails
  }

  function AllWarns(ss: seq<Section>): seq<Reason>
  {
    if |ss| == 0 then [] else AllWarns(ss[..|ss| - 1]) + ss[|ss| - 1].warns
  }

  function AllInfos(ss: seq<Section>): seq<Reason>
  {
    if |ss| == 0 then [] else AllInfos(ss[..|ss| - 1]) + ss[|ss| - 1].infos
  }

  function Components(ss: seq<Section>): (cs: seq<Component>)
    ensures |cs| == |ss|
    ensures forall i :: 0 <= i < |ss| ==> cs[i] == ss[i].component
  {
    if |ss| == 0 then [] else Components(ss[..|ss| - 1]) + [ss[|ss| - 1].component]
  }

  // ---------------------------------------------------------------- notes

  datatype Note = MissingNote | Failure(reason: Reason) | Warning(reason: Reason) | Information(reason: Reason) | StrictNote

  function Text(n: Note): string
  {
    match n
    case MissingNote => "CSP header missing; browsers fall back to permissive defaults."
    case Failure(r) => FailMark + ReasonText(r)
    case Warning(r) => WarnMark + ReasonText(r)
    case Information(r) => InfoMark + ReasonText(r)
    case StrictNote => OkMark + "CSP directives enforce strict defaults without obvious bypasses."
  }

  /** `reasons.map(reason => `❌ ${reason}`)` and its warning and information twins, before rendering. */
  function Tag(kind: Kind, reasons: seq<Reason>): (notes: seq<Note>)
    ensures |notes| == |reasons|
    ensures forall i :: 0 <= i < |reasons| ==> notes[i] == Tagged(kind, reasons[i])
  {
    if |reasons| == 0 then [] else [Tagged(kind, reasons[0])] + Tag(kind, reasons[1..])
  }

  datatype Kind = FailKind | WarnKind | InfoKind

  function Tagged(kind: Kind, r: Reason): Note
  {
    match kind
    case FailKind => Failure(r)
    case WarnKind => Warning(r)
    case InfoKind => Information(r)
  }

  /** The success line, when there is neither a failure nor a warning. */
  function StrictLine(failReasons: seq<Reason>, warnReasons: seq<Reason>): seq<Note>
  {
    if |failReasons| == 0 && |warnReasons| == 0 then [StrictNote] else []
  }

  /** `toNotes` */
  function ToNotes(failReasons: seq<Reason>, warnReasons: seq<Reason>, infoNotes: seq<Reason>): seq<Note>
  {
    Tag(FailKind, failReasons) + Tag(WarnKind, warnReasons) + Tag(InfoKind, infoNotes)
      + StrictLine(failReasons, warnReasons)
  }

  /** Where a note may stand: failures first, then warnings, then information, then the success line. */
  function Rank(n: Note): nat
  {
    match n
    case Failure(_) => 0
    case Warning(_) => 1
    case Information(_) => 2
    case _ => 3
  }

  /** A tagged list holds the note for `r` exactly when `r` is among its reasons. */
  lemma TagMember(kind: Kind, reasons: seq<Reason>, r: Reason)
    ensures Tagged(kind, r) in Tag(kind, reasons) <==> r in reasons
  {
    var notes := Tag(kind, reasons);
    if Tagged(kind, r) in notes {
      var i :| 0 <= i < |notes| && notes[i] == Tagged(kind, r);
      assert reasons[i] == r;
    }
    if r in reasons {
      var i :| 0 <= i < |reasons| && reasons[i] == r;
      assert notes[i] == Tagged(kind, r);
    }
  }

  /**
   * The notes run failures, then warnings, then information, then the success line,
   * and there is always at least one of them.
   */
  lemma NotesOrdered(failReasons: seq<Reason>, warnReasons: seq<Reason>, infoNotes: seq<Reason>)
    ensures var notes := ToNotes(failReasons, warnReasons, infoNotes);
      && |notes| > 0
      && (forall i, j :: 0 <= i < j < |notes| ==> Rank(notes[i]) <= Rank(notes[j]))
      && MissingNote !in notes
  {
    var a, b, c := |failReasons|, |warnReasons|, |infoNotes|;
    var notes := ToNotes(failReasons, warnReasons, infoNotes);
    forall i | 0 <= i < |notes|
      ensures Rank(notes[i]) == (if i < a then 0 else if i < a + b then 1 else if i < a + b + c then 2 else 3)
      ensures notes[i] != MissingNote
    {
      NoteAt(failReasons, warnReasons, infoNotes, i);
    }
  }

  /** The rank of the note at each position of the list `toNotes` builds. */
  lemma NoteAt(failReasons: seq<Reason>, warnReasons: seq<Reason>, infoNotes: seq<Reason>, i: nat)
    requires i < |ToNotes(failReasons, warnReasons, infoNotes)|
    ensures var a, b, c := |failReasons|, |warnReasons|, |infoNotes|;
      Rank(ToNotes(failReasons, warnReasons, infoNotes)[i])
        == (if i < a then 0 else if i < a + b then 1 else if i < a + b + c then 2 else 3)
    ensures ToNotes(failReasons, warnReasons, infoNotes)[i] != MissingNote
  {
    var a, b, c := Tag(FailKind, failReasons), Tag(WarnKind, warnReasons), Tag(InfoKind, infoNotes);
    var s := StrictLine(failReasons, warnReasons);
    var notes := ToNotes(failReasons, warnReasons, infoNotes);
    if i < |a| {
      assert notes[i] == a[i];
    } else if i < |a| + |b| {
      assert notes[i] == b[i - |a|];
    } else if i < |a| + |b| + |c| {
      assert notes[i] == c[i - |a| - |b|];
    } else {
      assert notes[i] == s[i - |a| - |b| - |c|];
    }
  }

  /** The reasons of one kind. */
  function OfKind(kind: Kind, failReasons: seq<Reason>, warnReasons: seq<Reason>, infoNotes: seq<Reason>): seq<Reason>
  {
    match kind
    case FailKind => failReasons
    case WarnKind => warnReasons
    case InfoKind => infoNotes
  }

  /** Each reason appears under its own kind of note, and no other reason does. */
  lemma NotesKeepReasons(failReasons: seq<Reason>, warnReasons: seq<Reason>, infoNotes: seq<Reason>, kind: Kind, r: Reason)
    ensures Tagged(kind, r) in ToNotes(failReasons, warnReasons, infoNotes)
        <==> r in OfKind(kind, failReasons, warnReasons, infoNotes)
  {
    var a, b, c := Tag(FailKind, failReasons), Tag(WarnKind, warnReasons), Tag(InfoKind, infoNotes);
    var s := StrictLine(failReasons, warnReasons);
    assert ToNotes(failReasons, warnReasons, infoNotes) == a + b + c + s;
    TagMember(kind, OfKind(kind, failReasons, warnReasons, infoNotes), r);
    match kind
    case FailKind =>
      assert Failure(r) !in b + c + s;
    case WarnKind =>
      assert Warning(r) !in a + c + s;
    case InfoKind =>
      assert Information(r) !in a + b + s;
  }

  /** The success line is there exactly when there is neither a failure nor a warning. */
  lemma StrictLineIff(failReasons: seq<Reason>, warnReasons: seq<Reason>, infoNotes: seq<Reason>)
    ensures StrictNote in ToNotes(failReasons, warnReasons, infoNotes) <==> |failReasons| == 0 && |warnReasons| == 0
  {
    var a, b, c := Tag(FailKind, failReasons), Tag(WarnKind, warnReasons), Tag(InfoKind, infoNotes);
    assert StrictNote !in a + b + c;
  }

  // ---------------------------------------------------------------- verdict

  /** The verdict on the sections' reasons and components: status by severity, credit by the weighted mean. */
  function Combine(ss: seq<Section>, weight: real): (r: Evaluation<Note>)
  {
    var fails := AllFails(ss);
    var warns := AllWarns(ss);
    Evaluation(weight * Ratio(Components(ss)), Severity(fails, warns), ToNotes(fails, warns, AllInfos(ss)))
  }

  /** The rule for a present header whose directive map is `directives`. */
  function Decide(directives: Directives, weight: real): (r: Evaluation<Note>)
  {
    Combine(Sections(directives), weight)
  }

  /** The rule as a whole, with notes still symbolic. */
  function Assess(value: Option<string>, weight: real): (r: Evaluation<Note>)
    ensures Sound(value, weight, r)
    ensures !Absent(value) ==> r == Decide(DirectiveMap(value.value), weight)
  {
    if Absent(value) then Evaluation(0.0, Missing, [MissingNote])
    else
      DecideJudged(DirectiveMap(value.value), weight);
      Decide(DirectiveMap(value.value), weight)
  }

  /** With non-negative component weights the verdict is judged: a status, a note, a bounded credit. */
  lemma CombineJudged(ss: seq<Section>, weight: real)
    requires forall i :: 0 <= i < |ss| ==> ss[i].component.weight >= 0.0
    ensures Judged(weight, Combine(ss, weight))
  {
    var fails, warns, infos := AllFails(ss), AllWarns(ss), AllInfos(ss);
    assert |ToNotes(fails, warns, infos)| >= 1 by {
      NotesOrdered(fails, warns, infos);
    }
    var cs := Components(ss);
    var ratio := Ratio(cs);
    assert 0.0 <= ratio <= 1.0 by {
      RatioWithin(cs);
    }
    var r := Combine(ss, weight);
    assert r.scoreDelta == weight * ratio;
    if 0.0 <= weight {
      ScaleWithin(ratio, weight);
    }
  }

  /** Every present policy gets a verdict, a note and a credit within the weight. */
  lemma DecideJudged(directives: Directives, weight: real)
    ensures Judged(weight, Decide(directives, weight))
  {
    ComponentWeights(directives);
    CombineJudged(Sections(directives), weight);
  }

  /** The seven components weigh 2, 3, 0.8, 0.8, 1, 0.5 and 0.3. */
  lemma ComponentWeights(directives: Directives)
    ensures var cs := Components(Sections(directives));
      |cs| == 7 && forall i :: 0 <= i < |cs| ==> cs[i].weight > 0.0
  {
    var ss := Sections(directives);
    forall i | 0 <= i < 7
      ensures ss[i].component.weight > 0.0
    {
    }
  }

  // ---------------------------------------------------------------- evaluate

  /** `evaluate`: the directive map, then the sections one by one, then the verdict. */
  method Evaluate(value: Option<string>, context: HeaderParserContext) returns (r: HeaderEvaluation)
    ensures r == Render(Assess(value, context.weight), Text)
    ensures Sound(value, context.weight, r)
  {
    var e: Evaluation<Note>;
    if Absent(value) {
      e := Evaluation(0.0, Missing, [MissingNote]);
    } else {
      var directives := ExtractDirectives(value.value);
      e := EvaluateDirectives(directives, context.weight);
    }
    r := Render(e, Text);
  }

  /** The sections before `k` have been run: the three lists and the tracker hold their output. */
  ghost predicate RanSections(ss: seq<Section>, k: nat, tracker: ScoreTracker,
                              failReasons: seq<Reason>, warnReasons: seq<Reason>, infoNotes: seq<Reason>)
    requires k <= |ss|
    reads tracker
  {
    && tracker.Valid()
    && tracker.components == Components(ss[..k])
    && failReasons == AllFails(ss[..k])
    && warnReasons == AllWarns(ss[..k])
    && infoNotes == AllInfos(ss[..k])
  }

  /** Running section `k` appends its reasons and its component. */
  lemma Extend(ss: seq<Section>, k: nat)
    requires k < |ss|
    ensures AllFails(ss[..k + 1]) == AllFails(ss[..k]) + ss[k].fails
    ensures AllWarns(ss[..k + 1]) == AllWarns(ss[..k]) + ss[k].warns
    ensures AllInfos(ss[..k + 1]) == AllInfos(ss[..k]) + ss[k].infos
    ensures Components(ss[..k + 1]) == Components(ss[..k]) + [ss[k].component]
  {
    assert ss[..k + 1][..k] == ss[..k];
  }

  /** `evaluate` once the directive map is built: look up the directives, then run the sections. */
  method EvaluateDirectives(directives: Directives, weight: real) returns (e: Evaluation<Note>)
    ensures e == Decide(directives, weight)
  {
    var defaultSrc := Get(directives, "default-src");
    var scriptSrc := if "script-src" in directives then Some(directives["script-src"]) else defaultSrc;
    var objectSrc := Get(directives, "object-src");
    var baseUri := Get(directives, "base-uri");
    var frameAncestors := Get(directives, "frame-ancestors");
    var upgrade := "upgrade-insecure-requests" in directives;
    var blockAll := "block-all-mixed-content" in directives;
    var hasReportDirective := "report-uri" in directives || "report-to" in directives;
    e := RunSections(Sections(directives), defaultSrc, scriptSrc, objectSrc, baseUri, frameAncestors,
                     upgrade, blockAll, hasReportDirective, weight);
  }

  /** The seven checks in order, each appending to the lists and the tracker, then the verdict. */
  method RunSections(ghost ss: seq<Section>, defaultSrc: Option<seq<string>>, scriptSrc: Option<seq<string>>,
                     objectSrc: Option<seq<string>>, baseUri: Option<seq<string>>,
                     frameAncestors: Option<seq<string>>, upgrade: bool, blockAll: bool,
                     hasReportDirective: bool, weight: real)
    returns (e: Evaluation<Note>)
    requires |ss| == 7
    requires ss[0] == DefaultSection(defaultSrc) && ss[1] == ScriptSection(scriptSrc)
    requires ss[2] == ObjectSection(objectSrc) && ss[3] == BaseSection(baseUri)
    requires ss[4] == FrameSection(frameAncestors) && ss[5] == MixedContentSection(upgrade, blockAll)
    requires ss[6] == ReportingSection(hasReportDirective)
    ensures e == Combine(ss, weight)
  {
    var failReasons: seq<Reason> := [];
    var warnReasons: seq<Reason> := [];
    var infoNotes: seq<Reason> := [];
    var tracker := new ScoreTracker();

    assert ss[..0] == [];
    failReasons, warnReasons, infoNotes := CheckDefaultSrc(defaultSrc, tracker, failReasons, warnReasons, infoNotes);
    Extend(ss, 0);
    failReasons, warnReasons, infoNotes := CheckScriptSrc(scriptSrc, tracker, failReasons, warnReasons, infoNotes);
    Extend(ss, 1);
    failReasons, warnReasons, infoNotes := CheckObjectSrc(objectSrc, tracker, failReasons, warnReasons, infoNotes);
    Extend(ss, 2);
    failReasons, warnReasons, infoNotes := CheckBaseUri(baseUri, tracker, failReasons, warnReasons, infoNotes);
    Extend(ss, 3);
    failReasons, warnReasons, infoNotes := CheckFrameAncestors(frameAncestors, tracker, failReasons, warnReasons, infoNotes);
    Extend(ss, 4);
    failReasons, warnReasons, infoNotes := CheckMixedContent(upgrade, blockAll, tracker, failReasons, warnReasons, infoNotes);
    Extend(ss, 5);
    failReasons, warnReasons, infoNotes := CheckReporting(hasReportDirective, tracker, failReasons, warnReasons, infoNotes);
    Extend(ss, 6);
    WholePrefix(ss);

    var normalizedScore := tracker.Finalize();
    var severity := Severity(failReasons, warnReasons);
    e := Evaluation(weight * normalizedScore, severity, ToNotes(failReasons, warnReasons, infoNotes));
    CombineRan(ss, failReasons, warnReasons, infoNotes, normalizedScore, weight, e);
  }

  lemma WholePrefix(ss: seq<Section>)
    ensures ss[..|ss|] == ss
  {
  }

  /** Once every section has run, the lists and components are those `Combine` reads. */
  lemma CombineRan(ss: seq<Section>, fails: seq<Reason>, warns: seq<Reason>, infos: seq<Reason>,
                   ratio: real, weight: real, e: Evaluation<Note>)
    requires fails == AllFails(ss) && warns == AllWarns(ss) && infos == AllInfos(ss) && ratio == Ratio(Components(ss))
    requires e == Evaluation(weight * ratio, Severity(fails, warns), ToNotes(fails, warns, infos))
    ensures e == Combine(ss, weight)
  {
    assert Combine(ss, weight) == Evaluation(weight * ratio, Severity(fails, warns), ToNotes(fails, warns, infos));
  }

  /** Lines 112-158: the `default-src` checks. */
  method CheckDefaultSrc(defaultSrc: Option<seq<string>>, tracker: ScoreTracker,
                         failReasons: seq<Reason>, warnReasons: seq<Reason>, infoNotes: seq<Reason>)
    returns (fails: seq<Reason>, warns: seq<Reason>, infos: seq<Reason>)
    requires tracker.Valid()
    modifies tracker
    ensures tracker.Valid() && tracker.components == old(tracker.components) + [DefaultSection(defaultSrc).component]
    ensures fails == failReasons + DefaultSection(defaultSrc).fails
    ensures warns == warnReasons + DefaultSection(defaultSrc).warns
    ensures infos == infoNotes + DefaultSection(defaultSrc).infos
  {
    fails, warns, infos := failReasons, warnReasons, infoNotes;
    if defaultSrc.None? || |defaultSrc.value| == 0 {
      fails := fails + [MissingDefaultSrc];
      tracker.AddComponent(0.0, 2.0);
    } else {
      var t := defaultSrc.value;
      var defaultScore := 0.25;
      var wildcard := IncludesWildcard(t);
      var insecureScheme := IncludesInsecureScheme(t);
      var broadHttps := IncludesBroadHttps(t);
      var dataSources := IncludesDataOrBlob(t);
      if wildcard {
        fails := fails + [DefaultWildcard];
        defaultScore := defaultScore - 0.15;
      } else {
        defaultScore := defaultScore + 0.2;
      }
      if insecureScheme {
        fails := fails + [DefaultInsecureScheme];
        defaultScore := defaultScore - 0.25;
      } else {
        defaultScore := defaultScore + 0.2;
      }
      if broadHttps {
        warns := warns + [DefaultBroadHttps];
      }
      if dataSources {
        warns := warns + [DefaultDataOrBlob];
        defaultScore := defaultScore - 0.05;
      } else {
        defaultScore := defaultScore + 0.1;
      }
      var isLockedDown := |t| == 1 && (t[0] == "self" || t[0] == "none");
      var includesSelf := "self" in t;
      if isLockedDown {
        defaultScore := defaultScore + 0.25;
      } else if includesSelf && !wildcard && !broadHttps {
        defaultScore := defaultScore + 0.15;
      }
      tracker.AddComponent(defaultScore, 2.0);
    }
  }

  /** Lines 160-227: the `script-src` checks. */
  method CheckScriptSrc(scriptSrc: Option<seq<string>>, tracker: ScoreTracker,
                        failReasons: seq<Reason>, warnReasons: seq<Reason>, infoNotes: seq<Reason>)
    returns (fails: seq<Reason>, warns: seq<Reason>, infos: seq<Reason>)
    requires tracker.Valid()
    modifies tracker
    ensures tracker.Valid() && tracker.components == old(tracker.components) + [ScriptSection(scriptSrc).component]
    ensures fails == failReasons + ScriptSection(scriptSrc).fails
    ensures warns == warnReasons + ScriptSection(scriptSrc).warns
    ensures infos == infoNotes + ScriptSection(scriptSrc).infos
  {
    if scriptSrc.None? {
      fails, warns, infos := failReasons, warnReasons + [ScriptSrcUndefined], infoNotes;
      tracker.AddComponent(0.25, 3.0);
    } else {
      var flags := ScriptFlagsOf(scriptSrc.value);
      var sectionFails, sectionWarns, scriptScore := ScoreScriptSrc(flags);
      tracker.AddComponent(scriptScore, 3.0);
      fails, warns, infos := failReasons + sectionFails, warnReasons + sectionWarns, infoNotes;
    }
  }

  /**
   * The pushes and score updates of lines 167-226 for a present `script-src` list; the
   * section's reasons are collected in order, then appended to the shared lists.
   */
  method ScoreScriptSrc(flags: ScriptFlags) returns (sectionFails: seq<Reason>, sectionWarns: seq<Reason>, scriptScore: real)
    ensures sectionFails == ScriptFails(flags) && sectionWarns == ScriptWarns(flags)
    ensures scriptScore == ScriptScore(flags)
  {
    sectionFails, sectionWarns := [], [];
    scriptScore := 0.2;
    var hasMitigation := flags.nonceOrHash || flags.strictDynamic;
    if flags.unsafeInline && !hasMitigation {
      sectionFails := sectionFails + [ScriptUnmitigatedInline];
      scriptScore := scriptScore - 0.25;
    } else if flags.unsafeInline {
      sectionWarns := sectionWarns + [ScriptMitigatedInline];
      scriptScore := scriptScore + 0.05;
    } else {
      scriptScore := scriptScore + 0.2;
    }
    if flags.unsafeEval {
      sectionWarns := sectionWarns + [ScriptUnsafeEval];
    } else {
      scriptScore := scriptScore + 0.1;
    }
    if flags.wildcard {
      sectionFails := sectionFails + [ScriptWildcard];
      scriptScore := scriptScore - 0.2;
    } else {
      scriptScore := scriptScore + 0.15;
    }
    if flags.insecureScheme {
      sectionFails := sectionFails + [ScriptInsecureScheme];
      scriptScore := scriptScore - 0.2;
    } else {
      scriptScore := scriptScore + 0.1;
    }
    if flags.broadHttps {
      sectionWarns := sectionWarns + [ScriptBroadHttps];
    }
    if flags.dataSources {
      sectionWarns := sectionWarns + [ScriptDataOrBlob];
    } else {
      scriptScore := scriptScore + 0.05;
    }
    if !flags.wildcard && !flags.insecureScheme {
      scriptScore := scriptScore + 0.1;
    }
    if hasMitigation {
      scriptScore := scriptScore + 0.2;
    }
    if flags.strictDynamic {
      scriptScore := scriptScore + 0.05;
    }
  }

  /** Lines 229-237: the `object-src` checks. */
  method CheckObjectSrc(objectSrc: Option<seq<string>>, tracker: ScoreTracker,
                        failReasons: seq<Reason>, warnReasons: seq<Reason>, infoNotes: seq<Reason>)
    returns (fails: seq<Reason>, warns: seq<Reason>, infos: seq<Reason>)
    requires tracker.Valid()
    modifies tracker
    ensures tracker.Valid() && tracker.components == old(tracker.components) + [ObjectSection(objectSrc).component]
    ensures fails == failReasons + ObjectSection(objectSrc).fails
    ensures warns == warnReasons + ObjectSection(objectSrc).warns
    ensures infos == infoNotes + ObjectSection(objectSrc).infos
  {
    fails, warns, infos := failReasons, warnReasons, infoNotes;
    if objectSrc.None? || |objectSrc.value| == 0 {
      warns := warns + [ObjectSrcMissing];
      tracker.AddComponent(0.25, 0.8);
    } else if !(|objectSrc.value| == 1 && objectSrc.value[0] == "none") {
      warns := warns + [ObjectSrcNotNone];
      tracker.AddComponent(0.5, 0.8);
    } else {
      tracker.AddComponent(1.0, 0.8);
    }
  }

  /** Lines 239-247: the `base-uri` checks. */
  method CheckBaseUri(baseUri: Option<seq<string>>, tracker: ScoreTracker,
                      failReasons: seq<Reason>, warnReasons: seq<Reason>, infoNotes: seq<Reason>)
    returns (fails: seq<Reason>, warns: seq<Reason>, infos: seq<Reason>)
    requires tracker.Valid()
    modifies tracker
    ensures tracker.Valid() && tracker.components == old(tracker.components) + [BaseSection(baseUri).component]
    ensures fails == failReasons + BaseSection(baseUri).fails
    ensures warns == warnReasons + BaseSection(baseUri).warns
    ensures infos == infoNotes + BaseSection(baseUri).infos
  {
    fails, warns, infos := failReasons, warnReasons, infoNotes;
    if baseUri.None? {
      warns := warns + [BaseUriMissing];
      tracker.AddComponent(0.0, 0.8);
    } else if !(|baseUri.value| == 1 && (baseUri.value[0] == "self" || baseUri.value[0] == "none")) {
      warns := warns + [BaseUriUnrestricted];
      tracker.AddComponent(0.4, 0.8);
    } else {
      tracker.AddComponent(1.0, 0.8);
    }
  }

  /** Lines 249-259: the `frame-ancestors` checks. */
  method CheckFrameAncestors(frameAncestors: Option<seq<string>>, tracker: ScoreTracker,
                             failReasons: seq<Reason>, warnReasons: seq<Reason>, infoNotes: seq<Reason>)
    returns (fails: seq<Reason>, warns: seq<Reason>, infos: seq<Reason>)
    requires tracker.Valid()
    modifies tracker
    ensures tracker.Valid() && tracker.components == old(tracker.components) + [FrameSection(frameAncestors).component]
    ensures fails == failReasons + FrameSection(frameAncestors).fails
    ensures warns == warnReasons + FrameSection(frameAncestors).warns
    ensures infos == infoNotes + FrameSection(frameAncestors).infos
  {
    fails, warns, infos := failReasons, warnReasons, infoNotes;
    if frameAncestors.None? {
      warns := warns + [FrameAncestorsMissing];
      tracker.AddComponent(0.3, 1.0);
    } else if "*" in frameAncestors.value || "http:" in frameAncestors.value {
      fails := fails + [FrameAncestorsBroad];
      tracker.AddComponent(0.1, 1.0);
    } else if "none" in frameAncestors.value {
      tracker.AddComponent(1.0, 1.0);
    } else {
      tracker.AddComponent(0.8, 1.0);
    }
  }

  /** Lines 261-268: the mixed-content checks. */
  method CheckMixedContent(upgrade: bool, blockAll: bool, tracker: ScoreTracker,
                           failReasons: seq<Reason>, warnReasons: seq<Reason>, infoNotes: seq<Reason>)
    returns (fails: seq<Reason>, warns: seq<Reason>, infos: seq<Reason>)
    requires tracker.Valid()
    modifies tracker
    ensures tracker.Valid() && tracker.components == old(tracker.components) + [MixedContentSection(upgrade, blockAll).component]
    ensures fails == failReasons + MixedContentSection(upgrade, blockAll).fails
    ensures warns == warnReasons + MixedContentSection(upgrade, blockAll).warns
    ensures infos == infoNotes + MixedContentSection(upgrade, blockAll).infos
  {
    fails, warns, infos := failReasons, warnReasons, infoNotes;
    if !upgrade && !blockAll {
      infos := infos + [NoMixedContentDirective];
      tracker.AddComponent(0.0, 0.5);
    } else if upgrade {
      tracker.AddComponent(1.0, 0.5);
    } else {
      tracker.AddComponent(0.7, 0.5);
    }
  }

  /** Lines 270-275: the reporting check. */
  method CheckReporting(hasReportDirective: bool, tracker: ScoreTracker,
                        failReasons: seq<Reason>, warnReasons: seq<Reason>, infoNotes: seq<Reason>)
    returns (fails: seq<Reason>, warns: seq<Reason>, infos: seq<Reason>)
    requires tracker.Valid()
    modifies tracker
    ensures tracker.Valid() && tracker.components == old(tracker.components) + [ReportingSection(hasReportDirective).component]
    ensures fails == failReasons + ReportingSection(hasReportDirective).fails
    ensures warns == warnReasons + ReportingSection(hasReportDirective).warns
    ensures infos == infoNotes + ReportingSection(hasReportDirective).infos
  {
    fails, warns, infos := failReasons, warnReasons, infoNotes;
    if hasReportDirective {
      infos := infos + [ReportingPresent];
      tracker.AddComponent(1.0, 0.3);
    } else {
      tracker.AddComponent(0.0, 0.3);
    }
  }
}
