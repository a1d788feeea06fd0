/**
 * The header analyzer: it looks every header of a fixed security catalog and of a
 * fixed catalog of information-leaking headers up in the response headers, sorts
 * the catalog entries into detected, missing and leaking, adds up a raw score from
 * a base of 50 and rescales it onto 0..100. The per-header rules are not consulted:
 * a present security header earns its full weight.
 */
module HeaderAnalyzer {
  import opened Wrappers
  import opened Seqs
  import opened Entities
  import opened HeaderParser
  import opened ScoreNormalizer

  /** One catalog line: a lower-case header name and its weight. */
  datatype CatalogEntry = CatalogEntry(name: string, weight: real)

  const BaseScore: real := 50.0

  // The catalog names, lower-case as the header map is keyed.
  const StrictTransportSecurity: string := "strict-transport-security"
  const ContentSecurityPolicy: string := "content-security-policy"
  const XContentTypeOptions: string := "x-content-type-options"
  const XFrameOptions: string := "x-frame-options"
  const XXssProtection: string := "x-xss-protection"
  const ReferrerPolicy: string := "referrer-policy"
  const PermissionsPolicy: string := "permissions-policy"
  const CrossOriginEmbedderPolicy: string := "cross-origin-embedder-policy"
  const CrossOriginOpenerPolicy: string := "cross-origin-opener-policy"
  const CrossOriginResourcePolicy: string := "cross-origin-resource-policy"
  const Server: string := "server"
  const XPoweredBy: string := "x-powered-by"
  const XAspNetVersion: string := "x-aspnet-version"
  const XRuntime: string := "x-runtime"
  const XGenerator: string := "x-generator"

  const SecurityHeaders: seq<CatalogEntry> :=
    [ CatalogEntry(StrictTransportSecurity, 10.0),
      CatalogEntry(ContentSecurityPolicy, 10.0),
      CatalogEntry(XContentTypeOptions, 5.0),
      CatalogEntry(XFrameOptions, 5.0),
      CatalogEntry(XXssProtection, 5.0),
      CatalogEntry(ReferrerPolicy, 3.0),
      CatalogEntry(PermissionsPolicy, 3.0),
      CatalogEntry(CrossOriginEmbedderPolicy, 2.0),
      CatalogEntry(CrossOriginOpenerPolicy, 2.0),
      CatalogEntry(CrossOriginResourcePolicy, 2.0) ]

  const LeakingHeaders: seq<CatalogEntry> :=
    [ CatalogEntry(Server, -3.0),
      CatalogEntry(XPoweredBy, -5.0),
      CatalogEntry(XAspNetVersion, -5.0),
      CatalogEntry(XRuntime, -3.0),
      CatalogEntry(XGenerator, -3.0) ]

  type Headers = map<string, string>

  /** `headers[name]`: `undefined` when the name is not a key. */
  function Lookup(headers: Headers, name: string): (v: Option<string>)
    ensures v.Some? <==> name in headers
    ensures v.Some? ==> v.value == headers[name]
  {
    if name in headers then Some(headers[name]) else None
  }

  /** `!!headers[name]`: the name is a key and its value is not the empty string. */
  predicate Present(headers: Headers, name: string)
  {
    !Absent(Lookup(headers, name))
  }

  function CatalogWeight(c: CatalogEntry): real
  {
    c.weight
  }

  /** `catalog.map(header => header.weight)` */
  function Weights(cs: seq<CatalogEntry>): (ws: seq<real>)
    ensures |ws| == |cs| && forall i :: 0 <= i < |cs| ==> ws[i] == cs[i].weight
  {
    Map(CatalogWeight, cs)
  }

  /**
   * The entry the analyzer records for one catalog line: with the value when the
   * header is present and without one otherwise.
   */
  function Observed(headers: Headers, c: CatalogEntry, leaking: bool): HeaderEntry
  {
    if Present(headers, c.name)
    then HeaderEntry(c.name, Some(headers[c.name]), true, c.weight, leaking)
    else HeaderEntry(c.name, None, false, c.weight, leaking)
  }

  /** One observed entry per catalog line, in catalog order. */
  function Observe(headers: Headers, cs: seq<CatalogEntry>, leaking: bool): (es: seq<HeaderEntry>)
    ensures |es| == |cs|
    ensures forall i :: 0 <= i < |cs| ==> es[i] == Observed(headers, cs[i], leaking)
  {
    if |cs| == 0 then [] else [Observed(headers, cs[0], leaking)] + Observe(headers, cs[1..], leaking)
  }

  predicate IsPresentEntry(e: HeaderEntry)
  {
    e.present
  }

  predicate IsAbsentEntry(e: HeaderEntry)
  {
    !e.present
  }

  /** The security catalog lines that are present, as `detected` entries, in catalog order. */
  function Detected(headers: Headers, cs: seq<CatalogEntry>): seq<HeaderEntry>
  {
    Filter(IsPresentEntry, Observe(headers, cs, false))
  }

  /** The security catalog lines that are absent, as `missing` entries, in catalog order. */
  function Missing(headers: Headers, cs: seq<CatalogEntry>): seq<HeaderEntry>
  {
    Filter(IsAbsentEntry, Observe(headers, cs, false))
  }

  /** The leaking catalog lines that are present, as `leaking` entries, in catalog order. */
  function Leaking(headers: Headers, cs: seq<CatalogEntry>): seq<HeaderEntry>
  {
    Filter(IsPresentEntry, Observe(headers, cs, true))
  }

  /** The weights of some entries added up, in order. */
  function Credit(es: seq<HeaderEntry>): real
  {
    if |es| == 0 then 0.0 else Credit(es[..|es| - 1]) + es[|es| - 1].weight
  }

  /** The score before normalization: the base plus the weight of every present catalog header. */
  function RawScore(headers: Headers): real
  {
    BaseScore + Credit(Detected(headers, SecurityHeaders)) + Credit(Leaking(headers, LeakingHeaders))
  }

  /** What `analyze` returns for a header map. */
  function Analysis(headers: Headers): (r: HeaderAnalysisResult)
    ensures 0.0 <= r.score <= 100.0
  {
    CatalogTotals();
    HeaderAnalysisResult(
      Detected(headers, SecurityHeaders),
      Missing(headers, SecurityHeaders),
      Leaking(headers, LeakingHeaders),
      Normalize(RawScore(headers), BaseScore, Weights(SecurityHeaders), Weights(LeakingHeaders)))
  }

  /**
   * `analyze`: the loop over the security catalog, the loop over the leaking catalog
   * (both starting from the base score), then the normalization.
   */
  method Analyze(headers: Headers) returns (result: HeaderAnalysisResult)
    ensures result == Analysis(headers)
  {
    var detected, missing, score := CheckSecurityHeaders(headers, SecurityHeaders, BaseScore);
    var leaking;
    leaking, score := CheckLeakingHeaders(headers, LeakingHeaders, score);
    CatalogTotals();
    score := Normalize(score, BaseScore, Weights(SecurityHeaders), Weights(LeakingHeaders));
    result := HeaderAnalysisResult(detected, missing, leaking, score);
  }

  /**
   * The first loop of `analyze`: a present header is pushed onto `detected` with its
   * value and adds its weight to the score; an absent one is pushed onto `missing`.
   */
  method CheckSecurityHeaders(headers: Headers, catalog: seq<CatalogEntry>, initialScore: real)
    returns (detected: seq<HeaderEntry>, missing: seq<HeaderEntry>, score: real)
    ensures detected == Detected(headers, catalog)
    ensures missing == Missing(headers, catalog)
    ensures score == initialScore + Credit(detected)
  {
    detected, missing, score := [], [], initialScore;
    for i := 0 to |catalog|
      invariant SecurityScan(detected, missing, score) == ScanSecurity(headers, catalog[..i], initialScore)
    {
      var header := catalog[i];
      var headerValue := Lookup(headers, header.name);
      var present := !Absent(headerValue);
      if present {
        score := score + header.weight;
        detected := detected + [HeaderEntry(header.name, headerValue, true, header.weight, false)];
      } else {
        missing := missing + [HeaderEntry(header.name, None, false, header.weight, false)];
      }
      PrefixSnoc(catalog, i);
    }
    PrefixWhole(catalog);
    ScanSecurityMeaning(headers, catalog, initialScore);
  }

  /**
   * The second loop of `analyze`: a present header is pushed onto `leaking` and adds
   * its (negative) weight to the score; an absent one is recorded nowhere.
   */
  method CheckLeakingHeaders(headers: Headers, catalog: seq<CatalogEntry>, initialScore: real)
    returns (leaking: seq<HeaderEntry>, score: real)
    ensures leaking == Leaking(headers, catalog)
    ensures score == initialScore + Credit(leaking)
  {
    leaking, score := [], initialScore;
    for i := 0 to |catalog|
      invariant leaking == Leaking(headers, catalog[..i])
      invariant score == initialScore + Credit(leaking)
    {
      var header := catalog[i];
      var headerValue := Lookup(headers, header.name);
      var present := !Absent(headerValue);
      ghost var before, scoreBefore := leaking, score;
      if present {
        score := score + header.weight;
        leaking := leaking + [HeaderEntry(header.name, headerValue, true, header.weight, true)];
      }
      LeakingStep(headers, catalog, i, before, scoreBefore, initialScore);
    }
    PrefixWhole(catalog);
  }

  // ---------------------------------------------------------------- loop steps

  lemma PrefixSnoc<T>(xs: seq<T>, i: nat)
    requires i < |xs|
    ensures xs[..i + 1] == xs[..i] + [xs[i]]
  {
  }

  lemma SplitLast<T>(xs: seq<T>)
    requires |xs| > 0
    ensures xs == xs[..|xs| - 1] + [xs[|xs| - 1]]
  {
  }

  lemma PrefixWhole<T>(xs: seq<T>)
    ensures xs[..|xs|] == xs
  {
  }

  lemma ObserveSnoc(headers: Headers, cs: seq<CatalogEntry>, c: CatalogEntry, leaking: bool)
    ensures Observe(headers, cs + [c], leaking) == Observe(headers, cs, leaking) + [Observed(headers, c, leaking)]
  {
  }

  /** Observing one more catalog line adds its entry to exactly one of the two filtered lists. */
  lemma ObserveStep(headers: Headers, cs: seq<CatalogEntry>, c: CatalogEntry, leaking: bool)
    ensures Filter(IsPresentEntry, Observe(headers, cs + [c], leaking))
         == Filter(IsPresentEntry, Observe(headers, cs, leaking))
            + (if Present(headers, c.name) then [Observed(headers, c, leaking)] else [])
    ensures Filter(IsAbsentEntry, Observe(headers, cs + [c], leaking))
         == Filter(IsAbsentEntry, Observe(headers, cs, leaking))
            + (if Present(headers, c.name) then [] else [Observed(headers, c, leaking)])
  {
    var es := Observe(headers, cs, leaking);
    var e := Observed(headers, c, leaking);
    ObserveSnoc(headers, cs, c, leaking);
    FilterConcat(IsPresentEntry, es, [e]);
    FilterConcat(IsAbsentEntry, es, [e]);
  }

  /** The state of the security loop: the two lists and the running score. */
  datatype SecurityScan = SecurityScan(detected: seq<HeaderEntry>, missing: seq<HeaderEntry>, score: real)

  /** The security loop run over a catalog, one line at a time. */
  function ScanSecurity(headers: Headers, cs: seq<CatalogEntry>, initialScore: real): SecurityScan
  {
    if |cs| == 0 then SecurityScan([], [], initialScore)
    else
      var s := ScanSecurity(headers, cs[..|cs| - 1], initialScore);
      var c := cs[|cs| - 1];
      if Present(headers, c.name)
      then SecurityScan(s.detected + [HeaderEntry(c.name, Lookup(headers, c.name), true, c.weight, false)],
                        s.missing, s.score + c.weight)
      else SecurityScan(s.detected, s.missing + [HeaderEntry(c.name, None, false, c.weight, false)], s.score)
  }

  /** The last catalog line goes to exactly one of the two security lists. */
  lemma SecurityLast(headers: Headers, cs: seq<CatalogEntry>)
    requires |cs| > 0
    ensures Detected(headers, cs) == Detected(headers, cs[..|cs| - 1])
              + (if Present(headers, cs[|cs| - 1].name) then [Observed(headers, cs[|cs| - 1], false)] else [])
    ensures Missing(headers, cs) == Missing(headers, cs[..|cs| - 1])
              + (if Present(headers, cs[|cs| - 1].name) then [] else [Observed(headers, cs[|cs| - 1], false)])
  {
    SplitLast(cs);
    ObserveStep(headers, cs[..|cs| - 1], cs[|cs| - 1], false);
  }

  /** The security loop sorts the catalog into `Detected` and `Missing` and credits the detected weights. */
  lemma {:induction false} ScanSecurityMeaning(headers: Headers, cs: seq<CatalogEntry>, initialScore: real)
    ensures ScanSecurity(headers, cs, initialScore)
         == SecurityScan(Detected(headers, cs), Missing(headers, cs), initialScore + Credit(Detected(headers, cs)))
  {
    if |cs| > 0 {
      var init, c := cs[..|cs| - 1], cs[|cs| - 1];
      ScanSecurityMeaning(headers, init, initialScore);
      SecurityLast(headers, cs);
      var e := Observed(headers, c, false);
      if Present(headers, c.name) {
        assert Detected(headers, cs) == Detected(headers, init) + [e];
        assert Missing(headers, cs) == Missing(headers, init);
        CreditSnoc(Detected(headers, init), e);
      } else {
        assert Detected(headers, cs) == Detected(headers, init);
        assert Missing(headers, cs) == Missing(headers, init) + [e];
      }
    }
  }

  /** One iteration of the leaking loop keeps its invariant. */
  lemma LeakingStep(headers: Headers, catalog: seq<CatalogEntry>, i: nat, leaking: seq<HeaderEntry>, score: real,
                    initialScore: real)
    requires i < |catalog|
    requires leaking == Leaking(headers, catalog[..i]) && score == initialScore + Credit(leaking)
    ensures var c := catalog[i];
            var entry := HeaderEntry(c.name, Lookup(headers, c.name), true, c.weight, true);
            var leaking' := if Present(headers, c.name) then leaking + [entry] else leaking;
            var score' := if Present(headers, c.name) then score + c.weight else score;
            leaking' == Leaking(headers, catalog[..i + 1]) && score' == initialScore + Credit(leaking')
  {
    var c := catalog[i];
    PrefixSnoc(catalog, i);
    ObserveStep(headers, catalog[..i], c, true);
    CreditSnoc(leaking, Observed(headers, c, true));
  }

  lemma CreditSnoc(es: seq<HeaderEntry>, e: HeaderEntry)
    ensures Credit(es + [e]) == Credit(es) + e.weight
  {
    assert (es + [e])[..|es|] == es;
  }

  // ---------------------------------------------------------------- catalog facts

  /** The security weights add up to 47 and the leaking weights to -19. */
  lemma CatalogTotals()
    ensures Sum(Weights(SecurityHeaders)) == 47.0
    ensures Sum(Weights(LeakingHeaders)) == -19.0
    ensures MinPossibleScore(BaseScore, Weights(LeakingHeaders)) == 31.0
    ensures MaxPossibleScore(BaseScore, Weights(SecurityHeaders)) == 97.0
  {
    SecurityTotal(SecurityHeaders);
    LeakingTotal(LeakingHeaders);
  }

  lemma SecurityTotal(cs: seq<CatalogEntry>)
    requires |cs| == 10
    requires cs[0].weight == 10.0 && cs[1].weight == 10.0 && cs[2].weight == 5.0 && cs[3].weight == 5.0
    requires cs[4].weight == 5.0 && cs[5].weight == 3.0 && cs[6].weight == 3.0
    requires cs[7].weight == 2.0 && cs[8].weight == 2.0 && cs[9].weight == 2.0
    ensures Sum(Weights(cs)) == 47.0
  {
    WeightsFrom(cs, 9); WeightsFrom(cs, 8); WeightsFrom(cs, 7); WeightsFrom(cs, 6); WeightsFrom(cs, 5);
    WeightsFrom(cs, 4); WeightsFrom(cs, 3); WeightsFrom(cs, 2); WeightsFrom(cs, 1); WeightsFrom(cs, 0);
    assert cs[0..] == cs;
  }

  lemma LeakingTotal(cs: seq<CatalogEntry>)
    requires |cs| == 5
    requires cs[0].weight == -3.0 && cs[1].weight == -5.0 && cs[2].weight == -5.0
    requires cs[3].weight == -3.0 && cs[4].weight == -3.0
    ensures Sum(Weights(cs)) == -19.0
  {
    WeightsFrom(cs, 4); WeightsFrom(cs, 3); WeightsFrom(cs, 2); WeightsFrom(cs, 1); WeightsFrom(cs, 0);
    assert cs[0..] == cs;
  }

  /** The weights of a catalog suffix: the first weight plus the rest. */
  lemma WeightsFrom(cs: seq<CatalogEntry>, k: nat)
    requires k < |cs|
    ensures Sum(Weights(cs[k..])) == cs[k].weight + Sum(Weights(cs[k + 1..]))
    ensures k + 1 == |cs| ==> Sum(Weights(cs[k + 1..])) == 0.0
  {
    assert cs[k..][1..] == cs[k + 1..];
  }

  // ---------------------------------------------------------------- properties

  /** Every security catalog line lands in exactly one of `detected` and `missing`, as its presence says. */
  lemma {:induction false} PartitionSizes(headers: Headers, cs: seq<CatalogEntry>)
    ensures |Detected(headers, cs)| + |Missing(headers, cs)| == |cs|
  {
    if |cs| > 0 {
      PartitionSizes(headers, cs[..|cs| - 1]);
      SecurityLast(headers, cs);
    }
  }

  /** A catalog line's entry is detected iff the header is present, and missing iff it is not. */
  lemma PresenceDecides(headers: Headers, cs: seq<CatalogEntry>, i: nat)
    requires i < |cs|
    ensures Observed(headers, cs[i], false) in Detected(headers, cs) <==> Present(headers, cs[i].name)
    ensures Observed(headers, cs[i], false) in Missing(headers, cs) <==> !Present(headers, cs[i].name)
  {
    var es := Observe(headers, cs, false);
    assert es[i] == Observed(headers, cs[i], false);
  }

  /** What an observed entry records: presence, and then the non-empty value looked up. */
  predicate WellFormed(headers: Headers, e: HeaderEntry)
  {
    && (e.present ==> e.value.Some? && e.value.value != "" && Lookup(headers, e.name) == e.value)
    && (!e.present ==> e.value.None?)
  }

  lemma ObservedWellFormed(headers: Headers, cs: seq<CatalogEntry>, leaking: bool)
    ensures forall e :: e in Observe(headers, cs, leaking) ==> WellFormed(headers, e) && e.leaking == leaking
  {
  }

  /**
   * The shape of the three buckets: detected entries are present with their
   * non-empty value and not leaking; missing entries are absent without a value and
   * not leaking; leaking entries are present with their non-empty value and leaking.
   */
  lemma EntryShapes(headers: Headers, cs: seq<CatalogEntry>)
    ensures forall e :: e in Detected(headers, cs) ==> e.present && !e.leaking && WellFormed(headers, e)
    ensures forall e :: e in Missing(headers, cs) ==> !e.present && !e.leaking && e.value.None?
    ensures forall e :: e in Leaking(headers, cs) ==> e.present && e.leaking && WellFormed(headers, e)
  {
    ObservedWellFormed(headers, cs, false);
    ObservedWellFormed(headers, cs, true);
  }

  lemma WeightsLast(cs: seq<CatalogEntry>)
    requires |cs| > 0
    ensures Sum(Weights(cs)) == Sum(Weights(cs[..|cs| - 1])) + cs[|cs| - 1].weight
  {
    assert Weights(cs) == Weights(cs[..|cs| - 1]) + [cs[|cs| - 1].weight];
    SumSnoc(Weights(cs[..|cs| - 1]), cs[|cs| - 1].weight);
  }

  /** The last catalog line's entry is kept by the presence filter iff the header is present. */
  lemma PresentLast(headers: Headers, cs: seq<CatalogEntry>, leaking: bool)
    requires |cs| > 0
    ensures Present(headers, cs[|cs| - 1].name) ==>
              Filter(IsPresentEntry, Observe(headers, cs, leaking))
              == Filter(IsPresentEntry, Observe(headers, cs[..|cs| - 1], leaking)) + [Observed(headers, cs[|cs| - 1], leaking)]
    ensures !Present(headers, cs[|cs| - 1].name) ==>
              Filter(IsPresentEntry, Observe(headers, cs, leaking))
              == Filter(IsPresentEntry, Observe(headers, cs[..|cs| - 1], leaking))
  {
    SplitLast(cs);
    ObserveStep(headers, cs[..|cs| - 1], cs[|cs| - 1], leaking);
  }

  /**
   * The credit of the present lines grows by the last line's weight when that header
   * is present, and not at all otherwise.
   */
  lemma CreditLast(headers: Headers, cs: seq<CatalogEntry>, leaking: bool)
    requires |cs| > 0
    ensures Credit(Filter(IsPresentEntry, Observe(headers, cs, leaking)))
         == Credit(Filter(IsPresentEntry, Observe(headers, cs[..|cs| - 1], leaking)))
            + (if Present(headers, cs[|cs| - 1].name) then cs[|cs| - 1].weight else 0.0)
    ensures Sum(Weights(cs)) == Sum(Weights(cs[..|cs| - 1])) + cs[|cs| - 1].weight
  {
    var kept := Filter(IsPresentEntry, Observe(headers, cs[..|cs| - 1], leaking));
    var e := Observed(headers, cs[|cs| - 1], leaking);
    PresentLast(headers, cs, leaking);
    if Present(headers, cs[|cs| - 1].name) {
      CreditSnoc(kept, e);
    }
    WeightsLast(cs);
  }

  /** With non-negative weights the credit of the present lines lies between 0 and the total. */
  lemma {:induction false} CreditWithinGains(headers: Headers, cs: seq<CatalogEntry>, leaking: bool)
    requires forall i :: 0 <= i < |cs| ==> cs[i].weight >= 0.0
    ensures 0.0 <= Credit(Filter(IsPresentEntry, Observe(headers, cs, leaking))) <= Sum(Weights(cs))
  {
    if |cs| > 0 {
      var init := cs[..|cs| - 1];
      CreditWithinGains(headers, init, leaking);
      CreditLast(headers, cs, leaking);
    }
  }

  /** With non-positive weights the credit of the present lines lies between the total and 0. */
  lemma {:induction false} CreditWithinLosses(headers: Headers, cs: seq<CatalogEntry>, leaking: bool)
    requires forall i :: 0 <= i < |cs| ==> cs[i].weight <= 0.0
    ensures Sum(Weights(cs)) <= Credit(Filter(IsPresentEntry, Observe(headers, cs, leaking))) <= 0.0
  {
    if |cs| > 0 {
      var init := cs[..|cs| - 1];
      CreditWithinLosses(headers, init, leaking);
      CreditLast(headers, cs, leaking);
    }
  }

  /** When every line is present, the credit is the catalog's whole weight. */
  lemma {:induction false} CreditAllPresent(headers: Headers, cs: seq<CatalogEntry>, leaking: bool)
    requires forall i :: 0 <= i < |cs| ==> Present(headers, cs[i].name)
    ensures Credit(Filter(IsPresentEntry, Observe(headers, cs, leaking))) == Sum(Weights(cs))
  {
    if |cs| > 0 {
      var init := cs[..|cs| - 1];
      CreditAllPresent(headers, init, leaking);
      CreditLast(headers, cs, leaking);
    }
  }

  /** When no line is present, nothing is kept. */
  lemma NonePresent(headers: Headers, cs: seq<CatalogEntry>, leaking: bool)
    requires forall i :: 0 <= i < |cs| ==> !Present(headers, cs[i].name)
    ensures Filter(IsPresentEntry, Observe(headers, cs, leaking)) == []
    ensures Filter(IsAbsentEntry, Observe(headers, cs, leaking)) == Observe(headers, cs, leaking)
  {
    FilterNone(IsPresentEntry, Observe(headers, cs, leaking));
    FilterAll(IsAbsentEntry, Observe(headers, cs, leaking));
  }

  /** The raw score always lies between 31 (only leaking headers) and 97 (only security headers). */
  lemma RawScoreWithin(headers: Headers)
    ensures MinPossibleScore(BaseScore, Weights(LeakingHeaders)) <= RawScore(headers)
                                                                  <= MaxPossibleScore(BaseScore, Weights(SecurityHeaders))
    ensures 31.0 <= RawScore(headers) <= 97.0
  {
    CatalogTotals();
    CreditWithinGains(headers, SecurityHeaders, false);
    CreditWithinLosses(headers, LeakingHeaders, true);
  }

  /** So the clamp never acts: the score is the raw score rescaled from 31..97. */
  lemma ScoreUnclamped(headers: Headers)
    ensures Analysis(headers).score == (RawScore(headers) - 31.0) / 66.0 * 100.0
  {
    RawScoreWithin(headers);
    CatalogTotals();
    ClampInactive(RawScore(headers), BaseScore, Weights(SecurityHeaders), Weights(LeakingHeaders));
  }

  /** No headers at all: every security header is missing, nothing leaks, and the score is 19/66 of 100. */
  lemma NoHeaders()
    ensures Analysis(map[]).detected == [] && Analysis(map[]).leaking == []
    ensures Analysis(map[]).missing == Observe(map[], SecurityHeaders, false)
    ensures |Analysis(map[]).missing| == 10
    ensures forall i :: 0 <= i < 10 ==>
              Analysis(map[]).missing[i] == HeaderEntry(SecurityHeaders[i].name, None, false, SecurityHeaders[i].weight, false)
    ensures Analysis(map[]).score == 1900.0 / 66.0
  {
    NonePresent(map[], SecurityHeaders, false);
    NonePresent(map[], LeakingHeaders, true);
    assert RawScore(map[]) == 50.0;
    ScoreUnclamped(map[]);
  }

  /** Every security header present and no leaking one: the score is 100. */
  lemma FullMarks(headers: Headers)
    requires forall i :: 0 <= i < |SecurityHeaders| ==> Present(headers, SecurityHeaders[i].name)
    requires forall i :: 0 <= i < |LeakingHeaders| ==> !Present(headers, LeakingHeaders[i].name)
    ensures Analysis(headers).score == 100.0
    ensures Analysis(headers).missing == [] && Analysis(headers).leaking == []
  {
    FullRaw(headers);
    ScoreUnclamped(headers);
    NonePresent(headers, LeakingHeaders, true);
    PartitionSizes(headers, SecurityHeaders);
    AllPresentKept(headers, SecurityHeaders, false);
  }

  /** When every catalog header is present, every entry is kept as present. */
  lemma AllPresentKept(headers: Headers, cs: seq<CatalogEntry>, leaking: bool)
    requires forall i :: 0 <= i < |cs| ==> Present(headers, cs[i].name)
    ensures Filter(IsPresentEntry, Observe(headers, cs, leaking)) == Observe(headers, cs, leaking)
    ensures |Observe(headers, cs, leaking)| == |cs|
  {
    FilterAll(IsPresentEntry, Observe(headers, cs, leaking));
  }

  /** Every security header and no leaking one: the raw score is the maximum, 97. */
  lemma FullRaw(headers: Headers)
    requires forall i :: 0 <= i < |SecurityHeaders| ==> Present(headers, SecurityHeaders[i].name)
    requires forall i :: 0 <= i < |LeakingHeaders| ==> !Present(headers, LeakingHeaders[i].name)
    ensures RawScore(headers) == 97.0
  {
    CreditAllPresent(headers, SecurityHeaders, false);
    NonePresent(headers, LeakingHeaders, true);
    CatalogTotals();
  }

  /** No security header and every leaking one present: the score is 0. */
  lemma NoMarks(headers: Headers)
    requires forall i :: 0 <= i < |SecurityHeaders| ==> !Present(headers, SecurityHeaders[i].name)
    requires forall i :: 0 <= i < |LeakingHeaders| ==> Present(headers, LeakingHeaders[i].name)
    ensures Analysis(headers).score == 0.0
    ensures Analysis(headers).detected == [] && |Analysis(headers).leaking| == 5
  {
    NoRaw(headers);
    ScoreUnclamped(headers);
    NonePresent(headers, SecurityHeaders, false);
    AllPresentKept(headers, LeakingHeaders, true);
  }

  /** No security header and every leaking one: the raw score is the minimum, 31. */
  lemma NoRaw(headers: Headers)
    requires forall i :: 0 <= i < |SecurityHeaders| ==> !Present(headers, SecurityHeaders[i].name)
    requires forall i :: 0 <= i < |LeakingHeaders| ==> Present(headers, LeakingHeaders[i].name)
    ensures RawScore(headers) == 31.0
  {
    NonePresent(headers, SecurityHeaders, false);
    CreditAllPresent(headers, LeakingHeaders, true);
    CatalogTotals();
  }

  /** Looking a catalog line up is blind to a header of another name. */
  lemma ObserveIgnores(headers: Headers, name: string, value: string, cs: seq<CatalogEntry>, leaking: bool)
    requires forall i :: 0 <= i < |cs| ==> cs[i].name != name
    ensures Observe(headers[name := value], cs, leaking) == Observe(headers, cs, leaking)
  {
    forall i | 0 <= i < |cs|
      ensures Observed(headers[name := value], cs[i], leaking) == Observed(headers, cs[i], leaking)
    {
      assert Lookup(headers[name := value], cs[i].name) == Lookup(headers, cs[i].name);
    }
  }

  /** A header in neither catalog changes nothing in the analysis. */
  lemma UnrelatedHeader(headers: Headers, name: string, value: string)
    requires forall i :: 0 <= i < |SecurityHeaders| ==> SecurityHeaders[i].name != name
    requires forall i :: 0 <= i < |LeakingHeaders| ==> LeakingHeaders[i].name != name
    ensures Analysis(headers[name := value]) == Analysis(headers)
  {
    var updated := headers[name := value];
    ObserveIgnores(headers, name, value, SecurityHeaders, false);
    ObserveIgnores(headers, name, value, LeakingHeaders, true);
    assert Detected(updated, SecurityHeaders) == Detected(headers, SecurityHeaders);
    assert Missing(updated, SecurityHeaders) == Missing(headers, SecurityHeaders);
    assert Leaking(updated, LeakingHeaders) == Leaking(headers, LeakingHeaders);
    assert RawScore(updated) == RawScore(headers);
  }
}
