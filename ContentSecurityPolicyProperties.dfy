/**
 * What the Content-Security-Policy rule promises, stated over the directive map: when
 * it fails, when it passes, how `script-src` falls back on `default-src`, which
 * directives can only warn, and when the whole weight is earned.
 */
module ContentSecurityPolicyProperties {
  import opened Wrappers
  import opened HeaderParser
  import opened ContentSecurityPolicyParser

  // ---------------------------------------------------------------- per section

  /** `default-src` fails exactly when it is missing or empty, or allows `*` or `http:`. */
  lemma DefaultFails(defaultSrc: Option<seq<string>>)
    ensures DefaultSection(defaultSrc).fails != [] <==>
      defaultSrc.None? || |defaultSrc.value| == 0
      || IncludesWildcard(defaultSrc.value) || IncludesInsecureScheme(defaultSrc.value)
  {
  }

  /** A present, non-empty `default-src` warns exactly when it allows `https:`, `data:` or `blob:`. */
  lemma DefaultWarns(defaultSrc: Option<seq<string>>)
    ensures DefaultSection(defaultSrc).warns != [] <==>
      defaultSrc.Some? && |defaultSrc.value| > 0
      && (IncludesBroadHttps(defaultSrc.value) || IncludesDataOrBlob(defaultSrc.value))
  {
  }

  /** The script list fails exactly when it allows unmitigated inline scripts, `*` or `http:`. */
  lemma ScriptFails(scriptSrc: Option<seq<string>>)
    ensures ScriptSection(scriptSrc).fails != [] <==>
      scriptSrc.Some? && (UnmitigatedInline(scriptSrc.value)
        || IncludesWildcard(scriptSrc.value) || IncludesInsecureScheme(scriptSrc.value))
  {
  }

  /**
   * The script list warns exactly when there is none, or it allows inline scripts
   * under a nonce, hash or `strict-dynamic`, `unsafe-eval`, `https:`, `data:` or `blob:`.
   */
  lemma ScriptWarns(scriptSrc: Option<seq<string>>)
    ensures ScriptSection(scriptSrc).warns != [] <==>
      scriptSrc.None?
      || (IncludesUnsafeInline(scriptSrc.value) && !UnmitigatedInline(scriptSrc.value))
      || IncludesUnsafeEval(scriptSrc.value) || IncludesBroadHttps(scriptSrc.value)
      || IncludesDataOrBlob(scriptSrc.value)
  {
  }

  /** `object-src` never fails; it warns unless it is exactly `'none'`. */
  lemma ObjectOnlyWarns(objectSrc: Option<seq<string>>)
    ensures ObjectSection(objectSrc).fails == []
    ensures ObjectSection(objectSrc).warns != [] <==> objectSrc != Some(["none"])
  {
    if objectSrc.Some? && |objectSrc.value| == 1 && objectSrc.value[0] == "none" {
      assert objectSrc.value == ["none"];
    }
  }

  /** `base-uri` never fails; it warns unless it is exactly `'self'` or exactly `'none'`. */
  lemma BaseOnlyWarns(baseUri: Option<seq<string>>)
    ensures BaseSection(baseUri).fails == []
    ensures BaseSection(baseUri).warns != [] <==> baseUri != Some(["self"]) && baseUri != Some(["none"])
  {
    if baseUri.Some? && |baseUri.value| == 1 {
      if baseUri.value[0] == "self" {
        assert baseUri.value == ["self"];
      } else if baseUri.value[0] == "none" {
        assert baseUri.value == ["none"];
      }
    }
  }

  /** `frame-ancestors` fails exactly when it allows `*` or `http:`, and warns exactly when it is missing. */
  lemma FrameFails(frameAncestors: Option<seq<string>>)
    ensures FrameSection(frameAncestors).fails != [] <==>
      frameAncestors.Some? && ("*" in frameAncestors.value || "http:" in frameAncestors.value)
    ensures FrameSection(frameAncestors).warns != [] <==> frameAncestors.None?
  {
  }

  /** The mixed-content and reporting checks only ever add information. */
  lemma OnlyInform(upgrade: bool, blockAll: bool, hasReportDirective: bool)
    ensures MixedContentSection(upgrade, blockAll).fails == [] && MixedContentSection(upgrade, blockAll).warns == []
    ensures ReportingSection(hasReportDirective).fails == [] && ReportingSection(hasReportDirective).warns == []
    ensures MixedContentSection(upgrade, blockAll).infos != [] <==> !upgrade && !blockAll
    ensures ReportingSection(hasReportDirective).infos != [] <==> hasReportDirective
  {
  }

  // ---------------------------------------------------------------- all sections

  /** No section's reasons, no reasons at all. */
  lemma {:induction false} NoFails(ss: seq<Section>)
    ensures AllFails(ss) == [] <==> forall i :: 0 <= i < |ss| ==> ss[i].fails == []
    decreases |ss|
  {
    if |ss| > 0 {
      var init := ss[..|ss| - 1];
      NoFails(init);
      assert forall i :: 0 <= i < |init| ==> init[i] == ss[i];
    }
  }

  lemma {:induction false} NoWarns(ss: seq<Section>)
    ensures AllWarns(ss) == [] <==> forall i :: 0 <= i < |ss| ==> ss[i].warns == []
    decreases |ss|
  {
    if |ss| > 0 {
      var init := ss[..|ss| - 1];
      NoWarns(init);
      assert forall i :: 0 <= i < |init| ==> init[i] == ss[i];
    }
  }

  /** For seven sections: no failures overall, none from any of them. */
  lemma SevenWithoutFails(ss: seq<Section>)
    requires |ss| == 7
    ensures AllFails(ss) == [] <==>
      ss[0].fails == [] && ss[1].fails == [] && ss[2].fails == [] && ss[3].fails == []
      && ss[4].fails == [] && ss[5].fails == [] && ss[6].fails == []
  {
    NoFails(ss);
    if ss[0].fails == [] && ss[1].fails == [] && ss[2].fails == [] && ss[3].fails == []
      && ss[4].fails == [] && ss[5].fails == [] && ss[6].fails == [] {
      forall i | 0 <= i < |ss|
        ensures ss[i].fails == []
      {
      }
    }
  }

  /** For seven sections: no warnings overall, none from any of them. */
  lemma SevenWithoutWarns(ss: seq<Section>)
    requires |ss| == 7
    ensures AllWarns(ss) == [] <==>
      ss[0].warns == [] && ss[1].warns == [] && ss[2].warns == [] && ss[3].warns == []
      && ss[4].warns == [] && ss[5].warns == [] && ss[6].warns == []
  {
    NoWarns(ss);
    if ss[0].warns == [] && ss[1].warns == [] && ss[2].warns == [] && ss[3].warns == []
      && ss[4].warns == [] && ss[5].warns == [] && ss[6].warns == [] {
      forall i | 0 <= i < |ss|
        ensures ss[i].warns == []
      {
      }
    }
  }

  /** The seven sections, addressed one by one. */
  lemma SectionsAt(directives: Directives)
    ensures var ss := Sections(directives);
      && ss[0] == DefaultSection(Get(directives, "default-src"))
      && ss[1] == ScriptSection(ScriptSrc(directives))
      && ss[2] == ObjectSection(Get(directives, "object-src"))
      && ss[3] == BaseSection(Get(directives, "base-uri"))
      && ss[4] == FrameSection(Get(directives, "frame-ancestors"))
      && ss[5] == MixedContentSection("upgrade-insecure-requests" in directives, "block-all-mixed-content" in directives)
      && ss[6] == ReportingSection("report-uri" in directives || "report-to" in directives)
  {
  }

  // ---------------------------------------------------------------- the verdict

  /** The three ways a policy fails: a weak `default-src`, a weak script list, broad `frame-ancestors`. */
  predicate FailingPolicy(directives: Directives)
  {
    var defaultSrc := Get(directives, "default-src");
    var scriptSrc := ScriptSrc(directives);
    var frameAncestors := Get(directives, "frame-ancestors");
    || defaultSrc.None? || |defaultSrc.value| == 0
    || IncludesWildcard(defaultSrc.value) || IncludesInsecureScheme(defaultSrc.value)
    || (scriptSrc.Some? && (UnmitigatedInline(scriptSrc.value)
          || IncludesWildcard(scriptSrc.value) || IncludesInsecureScheme(scriptSrc.value)))
    || (frameAncestors.Some? && ("*" in frameAncestors.value || "http:" in frameAncestors.value))
  }

  /**
   * A policy free of every failure and warning: a non-empty `default-src` without `*`,
   * `http:`, `https:`, `data:` or `blob:`; a script list (its own or the default) without
   * `unsafe-inline`, `unsafe-eval`, `*`, `http:`, `https:`, `data:` or `blob:`; `object-src`
   * exactly `'none'`; `base-uri` exactly `'self'` or `'none'`; and `frame-ancestors`
   * present without `*` or `http:`.
   */
  predicate StrictPolicy(directives: Directives)
  {
    var defaultSrc := Get(directives, "default-src");
    var scriptSrc := ScriptSrc(directives);
    var frameAncestors := Get(directives, "frame-ancestors");
    && defaultSrc.Some? && |defaultSrc.value| > 0
    && !IncludesWildcard(defaultSrc.value) && !IncludesInsecureScheme(defaultSrc.value)
    && !IncludesBroadHttps(defaultSrc.value) && !IncludesDataOrBlob(defaultSrc.value)
    && scriptSrc.Some?
    && !IncludesUnsafeInline(scriptSrc.value) && !IncludesUnsafeEval(scriptSrc.value)
    && !IncludesWildcard(scriptSrc.value) && !IncludesInsecureScheme(scriptSrc.value)
    && !IncludesBroadHttps(scriptSrc.value) && !IncludesDataOrBlob(scriptSrc.value)
    && Get(directives, "object-src") == Some(["none"])
    && (Get(directives, "base-uri") == Some(["self"]) || Get(directives, "base-uri") == Some(["none"]))
    && frameAncestors.Some? && "*" !in frameAncestors.value && "http:" !in frameAncestors.value
  }

  /** The status is `fail` exactly for a failing policy. */
  lemma DecideFails(directives: Directives, weight: real)
    ensures Decide(directives, weight).status == Fail <==> FailingPolicy(directives)
  {
    var ss := Sections(directives);
    SectionsAt(directives);
    SevenWithoutFails(ss);
    DefaultFails(Get(directives, "default-src"));
    ScriptFails(ScriptSrc(directives));
    ObjectOnlyWarns(Get(directives, "object-src"));
    BaseOnlyWarns(Get(directives, "base-uri"));
    FrameFails(Get(directives, "frame-ancestors"));
    OnlyInform("upgrade-insecure-requests" in directives, "block-all-mixed-content" in directives,
               "report-uri" in directives || "report-to" in directives);
  }

  /** The status is `pass` exactly for a strict policy. */
  lemma DecidePasses(directives: Directives, weight: real)
    ensures Decide(directives, weight).status == Pass <==> StrictPolicy(directives)
  {
    var ss := Sections(directives);
    SectionsAt(directives);
    SevenWithoutFails(ss);
    SevenWithoutWarns(ss);
    DefaultFails(Get(directives, "default-src"));
    DefaultWarns(Get(directives, "default-src"));
    ScriptFails(ScriptSrc(directives));
    ScriptWarns(ScriptSrc(directives));
    ObjectOnlyWarns(Get(directives, "object-src"));
    BaseOnlyWarns(Get(directives, "base-uri"));
    FrameFails(Get(directives, "frame-ancestors"));
    OnlyInform("upgrade-insecure-requests" in directives, "block-all-mixed-content" in directives,
               "report-uri" in directives || "report-to" in directives);
  }

  /** The success line is among the notes exactly for a strict policy. */
  lemma StrictNoteIff(directives: Directives, weight: real)
    ensures StrictNote in Decide(directives, weight).notes <==> StrictPolicy(directives)
  {
    var ss := Sections(directives);
    StrictLineIff(AllFails(ss), AllWarns(ss), AllInfos(ss));
    DecidePasses(directives, weight);
  }

  /** A reason is among all warnings exactly when some section raised it. */
  lemma {:induction false} WarnedBy(ss: seq<Section>, r: Reason)
    ensures r in AllWarns(ss) <==> exists i :: 0 <= i < |ss| && r in ss[i].warns
    decreases |ss|
  {
    if |ss| > 0 {
      var init := ss[..|ss| - 1];
      WarnedBy(init, r);
      assert forall i :: 0 <= i < |init| ==> init[i] == ss[i];
    }
  }

  /** A reason is among all failures exactly when some section raised it. */
  lemma {:induction false} FailedBy(ss: seq<Section>, r: Reason)
    ensures r in AllFails(ss) <==> exists i :: 0 <= i < |ss| && r in ss[i].fails
    decreases |ss|
  {
    if |ss| > 0 {
      var init := ss[..|ss| - 1];
      FailedBy(init, r);
      assert forall i :: 0 <= i < |init| ==> init[i] == ss[i];
    }
  }

  /**
   * `script-src ?? default-src`: with neither directive the policy fails for the missing
   * default and warns that scripts are unrestricted.
   */
  lemma NeitherScriptNorDefault(directives: Directives, weight: real)
    requires "script-src" !in directives && "default-src" !in directives
    ensures Decide(directives, weight).status == Fail
    ensures Failure(MissingDefaultSrc) in Decide(directives, weight).notes
    ensures Warning(ScriptSrcUndefined) in Decide(directives, weight).notes
  {
    var ss := Sections(directives);
    SectionsAt(directives);
    DecideFails(directives, weight);
    FailedBy(ss, MissingDefaultSrc);
    assert MissingDefaultSrc in ss[0].fails;
    WarnedBy(ss, ScriptSrcUndefined);
    assert ScriptSrcUndefined in ss[1].warns;
    NotesKeepReasons(AllFails(ss), AllWarns(ss), AllInfos(ss), FailKind, MissingDefaultSrc);
    NotesKeepReasons(AllFails(ss), AllWarns(ss), AllInfos(ss), WarnKind, ScriptSrcUndefined);
  }

  /** An empty `default-src` is reported as missing. */
  lemma EmptyDefaultFails(directives: Directives, weight: real)
    requires "default-src" in directives && directives["default-src"] == []
    ensures Failure(MissingDefaultSrc) in Decide(directives, weight).notes
  {
    var ss := Sections(directives);
    SectionsAt(directives);
    FailedBy(ss, MissingDefaultSrc);
    assert MissingDefaultSrc in ss[0].fails;
    NotesKeepReasons(AllFails(ss), AllWarns(ss), AllInfos(ss), FailKind, MissingDefaultSrc);
  }

  /** With `default-src` standing in for `script-src`, no section warns that scripts are undefined. */
  lemma ScriptsDefinedByDefault(directives: Directives)
    requires "script-src" !in directives && "default-src" in directives
    ensures ScriptSrcUndefined !in AllWarns(Sections(directives))
  {
    var ss := Sections(directives);
    SectionsAt(directives);
    WarnedBy(ss, ScriptSrcUndefined);
    assert ScriptSrcUndefined !in ss[0].warns;
    assert ScriptSrcUndefined !in ss[1].warns;
    assert ScriptSrcUndefined !in ss[2].warns;
    assert ScriptSrcUndefined !in ss[3].warns;
    assert ScriptSrcUndefined !in ss[4].warns;
    assert ScriptSrcUndefined !in ss[5].warns;
    assert ScriptSrcUndefined !in ss[6].warns;
  }

  /** An empty `default-src` standing in for `script-src` raises no script warning. */
  lemma EmptyDefaultSilencesScripts(directives: Directives, weight: real)
    requires "script-src" !in directives && "default-src" in directives && directives["default-src"] == []
    ensures Warning(ScriptSrcUndefined) !in Decide(directives, weight).notes
    ensures ScriptSection(ScriptSrc(directives)).fails == [] && ScriptSection(ScriptSrc(directives)).warns == []
  {
    var ss := Sections(directives);
    ScriptsDefinedByDefault(directives);
    NotesKeepReasons(AllFails(ss), AllWarns(ss), AllInfos(ss), WarnKind, ScriptSrcUndefined);
  }

  /**
   * An empty `default-src` counts as missing for its own check, yet, being present, it
   * still stands in for `script-src`: the script check sees an empty list and raises
   * nothing, so no warning about undefined scripts appears.
   */
  lemma EmptyDefaultServesScripts(directives: Directives, weight: real)
    requires "script-src" !in directives && "default-src" in directives && directives["default-src"] == []
    ensures Failure(MissingDefaultSrc) in Decide(directives, weight).notes
    ensures Warning(ScriptSrcUndefined) !in Decide(directives, weight).notes
    ensures ScriptSection(ScriptSrc(directives)).fails == [] && ScriptSection(ScriptSrc(directives)).warns == []
  {
    EmptyDefaultFails(directives, weight);
    EmptyDefaultSilencesScripts(directives, weight);
  }

  // ---------------------------------------------------------------- full credit

  /** When every component is clamped to 1, the credit earned is the whole weight. */
  lemma {:induction false} EarnedAll(cs: seq<Component>)
    requires forall i :: 0 <= i < |cs| ==> Clamp(cs[i].score) == 1.0
    ensures Earned(cs) == Maximum(cs)
    decreases |cs|
  {
    if |cs| > 0 {
      var init := cs[..|cs| - 1];
      assert forall i :: 0 <= i < |init| ==> init[i] == cs[i];
      EarnedAll(init);
      assert Credit(cs[|cs| - 1]) == cs[|cs| - 1].weight;
    }
  }

  /** Positive weights add up to a positive maximum. */
  lemma {:induction false} MaximumPositive(cs: seq<Component>)
    requires |cs| > 0
    requires forall i :: 0 <= i < |cs| ==> cs[i].weight > 0.0
    ensures Maximum(cs) > 0.0
    decreases |cs|
  {
    var init := cs[..|cs| - 1];
    if |init| > 0 {
      assert forall i :: 0 <= i < |init| ==> init[i] == cs[i];
      MaximumPositive(init);
    }
  }

  /** Under the conditions of `FullCredit` every one of the seven components earns its whole weight. */
  lemma FullComponents(directives: Directives)
    requires StrictPolicy(directives)
    requires Get(directives, "default-src") == Some(["self"]) || Get(directives, "default-src") == Some(["none"])
    requires HasNonceOrHash(ScriptSrc(directives).value) || "strict-dynamic" in ScriptSrc(directives).value
    requires "none" in directives["frame-ancestors"]
    requires "upgrade-insecure-requests" in directives
    requires "report-uri" in directives || "report-to" in directives
    ensures var cs := Components(Sections(directives));
      |cs| > 0 && forall i :: 0 <= i < |cs| ==> Clamp(cs[i].score) == 1.0 && cs[i].weight > 0.0
  {
    var ss := Sections(directives);
    SectionsAt(directives);
    var cs := Components(ss);
    forall i | 0 <= i < |cs|
      ensures Clamp(cs[i].score) == 1.0 && cs[i].weight > 0.0
    {
    }
  }

  /**
   * A strict policy that is also locked down to `'self'` or `'none'`, mitigates its
   * scripts by a nonce, a hash or `strict-dynamic`, forbids all framing, upgrades
   * insecure requests and reports violations earns the rule's whole weight.
   */
  lemma FullCredit(directives: Directives, weight: real)
    requires StrictPolicy(directives)
    requires Get(directives, "default-src") == Some(["self"]) || Get(directives, "default-src") == Some(["none"])
    requires HasNonceOrHash(ScriptSrc(directives).value) || "strict-dynamic" in ScriptSrc(directives).value
    requires "none" in directives["frame-ancestors"]
    requires "upgrade-insecure-requests" in directives
    requires "report-uri" in directives || "report-to" in directives
    ensures Decide(directives, weight).status == Pass
    ensures Decide(directives, weight).scoreDelta == weight
  {
    DecidePasses(directives, weight);
    FullComponents(directives);
    FullRatio(Components(Sections(directives)));
    WholeRatioCredit(Sections(directives), weight);
  }

  /** Components that all earn their positive weight in full have ratio 1. */
  lemma FullRatio(cs: seq<Component>)
    requires |cs| > 0 && forall i :: 0 <= i < |cs| ==> Clamp(cs[i].score) == 1.0 && cs[i].weight > 0.0
    ensures Ratio(cs) == 1.0
  {
    EarnedAll(cs);
    MaximumPositive(cs);
    var m := Maximum(cs);
    assert m / m == 1.0;
  }

  /** A ratio of 1 gives the rule's whole weight. */
  lemma WholeRatioCredit(ss: seq<Section>, weight: real)
    requires Ratio(Components(ss)) == 1.0
    ensures Combine(ss, weight).scoreDelta == weight
  {
  }
}
