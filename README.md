# http-scanner worker core in Dafny

This project models the scoring core of the http-scanner worker. The worker fetches a site's HTTP response headers, judges each security header with its own rule, and sums weighted presence into a normalised 0–100 score. It stores the result as a report that the API later regroups and serves. The model covers:

- the thirteen per-header rules, and the shared contract every rule keeps;
- the registry that files each rule under its header name;
- the min-max score normaliser;
- the header analyzer, with its two catalog loops;
- the report mapper;
- the URL validator's guards;
- the report and statistics use cases;
- the query parsing of `GET /reports`;
- the error-to-HTTP mapping.

## Layout

- Shared modules:
  - `Wrappers`: `Option` and `Result`.
  - `Seqs`: `Map`, `Filter` and `Sum`.
  - `Strings`: JavaScript white space, `trim`, ASCII case mapping, `split` and `join`, decimal digits, UTF-16 length.
  - `HeaderParser`: the rule interface, with `Status`, `Evaluation`, the context, the shared `Sound` contract and the fail/warn/pass `Severity` ranking.
  - `Entities`: header entries, analysis results and reports.
- One module per rule, named after the rule's source file (`XFrameOptionsParser`, `ContentSecurityPolicyParser`, and so on). Each rule has:
  - a note datatype, whose `Text` renders the rule's messages;
  - a decision function, holding the verdict table over the already-normalised value;
  - `Assess`, which adds the absent-value case;
  - `Evaluate`, the rule's entry point.
- The four rules whose source builds its result step by step (Content-Security-Policy, Strict-Transport-Security, Referrer-Policy, Clear-Site-Data) have an `Evaluate` method. It pushes reasons onto local sequences in the source's order and is proved equal to the rendered `Assess`.
- Content-Security-Policy:
  - `ExtractDirectives` is a loop that fills a map.
  - The closure-based score tracker is the class `ScoreTracker`, with `earned` and `maximum` fields.
  - The properties of the policy verdict live in `ContentSecurityPolicyProperties`.
- `HeaderAnalyzer.Analyze` is a method with the source's two loops. It is proved equal to the function `Analysis`, which the analyzer lemmas are about.
- `new URL`, the repositories and the page query are function parameters. The model does not interpret them.

Weights, multipliers and scores are `real`. Timestamps are a `JsNumber`: a finite real, or a non-finite value.

## Model

| member | source | states |
|---|---|---|
| HeaderParser.Render | worker/interfaces/parsers/HeaderParser.ts:3-7 | rendering notes to text keeps score and status, and maps each note in order |
| HeaderParser.Severity | worker/impl/parsers/security/contentSecurityPolicyParser.ts:278 | `fail` iff there is a fail reason; `partial` iff there are no fail reasons but a warning; `pass` iff there are neither |
| XFrameOptionsParser.Decide | worker/impl/parsers/security/xFrameOptionsParser.ts:14-50 | the value table on the normalised value: after trim and upper-casing: `DENY` (bare or quoted) passes with the weight; `SAMEORIGIN` (bare or quoted) is partial with 0.8×weight; a value starting with `ALLOW-FROM` is partial with 0.4×weight; anything else fails with 0; one note in every branch |
| XFrameOptionsParser.Assess | worker/impl/parsers/security/xFrameOptionsParser.ts:6-50 | satisfies the shared rule contract (absent or empty value, and only that, gives `missing`, 0 and one note; exactly one note; credit within [0, weight] for a non-negative weight); a present value is judged by `Decide` on its trimmed, upper-cased form |
| XFrameOptionsParser.Evaluate | worker/impl/parsers/security/xFrameOptionsParser.ts:5-51 | the rendered X-Frame-Options verdict: same status and credit as `Assess`, the shared rule contract, one note |
| XFrameOptionsParser.DecideIgnoresRaw | worker/impl/parsers/security/xFrameOptionsParser.ts:14-50 | status and credit depend only on the normalised value, never on the raw text quoted in the note |
| XFrameOptionsParser.IgnoresCase | worker/impl/parsers/security/xFrameOptionsParser.ts:14 | changing the letter case of a value (ToLower) leaves status and credit unchanged |
| XFrameOptionsParser.IgnoresSurroundingSpace | worker/impl/parsers/security/xFrameOptionsParser.ts:14 | trimming a value that is not blank leaves status and credit unchanged |
| CrossOriginEmbedderPolicyParser.Decide | worker/impl/parsers/security/crossOriginEmbedderPolicyParser.ts:14-52 | the value table on the normalised value: `require-corp` passes with the weight, `credentialless` is partial with 0.7×weight, `unsafe-none` fails with 0, anything else is partial with 0.4×weight; one note |
| CrossOriginEmbedderPolicyParser.Assess | worker/impl/parsers/security/crossOriginEmbedderPolicyParser.ts:6-52 | satisfies the shared rule contract (absent or empty value, and only that, gives `missing`, 0 and one note; exactly one note; credit within [0, weight] for a non-negative weight); a present value is judged by `Decide` on its trimmed, lower-cased form |
| CrossOriginEmbedderPolicyParser.Evaluate | worker/impl/parsers/security/crossOriginEmbedderPolicyParser.ts:5-53 | the rendered Cross-Origin-Embedder-Policy verdict: same status and credit as `Assess`, the shared rule contract, one note |
| CrossOriginEmbedderPolicyParser.DecideIgnoresRaw | worker/impl/parsers/security/crossOriginEmbedderPolicyParser.ts:14-52 | status and credit depend only on the normalised value, never on the raw text quoted in the note |
| CrossOriginEmbedderPolicyParser.IgnoresCase | worker/impl/parsers/security/crossOriginEmbedderPolicyParser.ts:14 | changing the letter case of a value (ToUpper) leaves status and credit unchanged |
| CrossOriginEmbedderPolicyParser.IgnoresSurroundingSpace | worker/impl/parsers/security/crossOriginEmbedderPolicyParser.ts:14 | trimming a value that is not blank leaves status and credit unchanged |
| CrossOriginOpenerPolicyParser.Decide | worker/impl/parsers/security/crossOriginOpenerPolicyParser.ts:14-51 | the value table on the normalised value: `same-origin` passes with the weight, `same-origin-allow-popups` is partial with 0.6×weight, `unsafe-none` fails with 0, anything else is partial with 0.4×weight; one note |
| CrossOriginOpenerPolicyParser.Assess | worker/impl/parsers/security/crossOriginOpenerPolicyParser.ts:6-51 | satisfies the shared rule contract (absent or empty value, and only that, gives `missing`, 0 and one note; exactly one note; credit within [0, weight] for a non-negative weight); a present value is judged by `Decide` on its trimmed, lower-cased form |
| CrossOriginOpenerPolicyParser.Evaluate | worker/impl/parsers/security/crossOriginOpenerPolicyParser.ts:5-52 | the rendered Cross-Origin-Opener-Policy verdict: same status and credit as `Assess`, the shared rule contract, one note |
| CrossOriginOpenerPolicyParser.DecideIgnoresRaw | worker/impl/parsers/security/crossOriginOpenerPolicyParser.ts:14-51 | status and credit depend only on the normalised value, never on the raw text quoted in the note |
| CrossOriginOpenerPolicyParser.IgnoresCase | worker/impl/parsers/security/crossOriginOpenerPolicyParser.ts:14 | changing the letter case of a value (ToUpper) leaves status and credit unchanged |
| CrossOriginOpenerPolicyParser.IgnoresSurroundingSpace | worker/impl/parsers/security/crossOriginOpenerPolicyParser.ts:14 | trimming a value that is not blank leaves status and credit unchanged |
| CrossOriginResourcePolicyParser.Decide | worker/impl/parsers/security/crossOriginResourcePolicyParser.ts:14-52 | the value table on the normalised value: `same-origin` passes with the weight, `same-site` is partial with 0.7×weight, `cross-origin` fails with 0, anything else is partial with 0.4×weight; one note |
| CrossOriginResourcePolicyParser.Assess | worker/impl/parsers/security/crossOriginResourcePolicyParser.ts:6-52 | satisfies the shared rule contract (absent or empty value, and only that, gives `missing`, 0 and one note; exactly one note; credit within [0, weight] for a non-negative weight); a present value is judged by `Decide` on its trimmed, lower-cased form |
| CrossOriginResourcePolicyParser.Evaluate | worker/impl/parsers/security/crossOriginResourcePolicyParser.ts:5-53 | the rendered Cross-Origin-Resource-Policy verdict: same status and credit as `Assess`, the shared rule contract, one note |
| CrossOriginResourcePolicyParser.DecideIgnoresRaw | worker/impl/parsers/security/crossOriginResourcePolicyParser.ts:14-52 | status and credit depend only on the normalised value, never on the raw text quoted in the note |
| CrossOriginResourcePolicyParser.IgnoresCase | worker/impl/parsers/security/crossOriginResourcePolicyParser.ts:14 | changing the letter case of a value (ToUpper) leaves status and credit unchanged |
| CrossOriginResourcePolicyParser.IgnoresSurroundingSpace | worker/impl/parsers/security/crossOriginResourcePolicyParser.ts:14 | trimming a value that is not blank leaves status and credit unchanged |
| XContentTypeOptionsParser.Decide | worker/impl/parsers/security/xContentTypeOptionsParser.ts:14-41 | the value table on the normalised value: `nosniff` passes with the weight, `0` or `off` fails with 0, anything else is partial with 0.3×weight; one note |
| XContentTypeOptionsParser.Assess | worker/impl/parsers/security/xContentTypeOptionsParser.ts:6-41 | satisfies the shared rule contract (absent or empty value, and only that, gives `missing`, 0 and one note; exactly one note; credit within [0, weight] for a non-negative weight); a present value is judged by `Decide` on its trimmed, lower-cased form |
| XContentTypeOptionsParser.Evaluate | worker/impl/parsers/security/xContentTypeOptionsParser.ts:5-42 | the rendered X-Content-Type-Options verdict: same status and credit as `Assess`, the shared rule contract, one note |
| XContentTypeOptionsParser.DecideIgnoresRaw | worker/impl/parsers/security/xContentTypeOptionsParser.ts:14-41 | status and credit depend only on the normalised value, never on the raw text quoted in the note |
| XContentTypeOptionsParser.IgnoresCase | worker/impl/parsers/security/xContentTypeOptionsParser.ts:14 | changing the letter case of a value (ToUpper) leaves status and credit unchanged |
| XContentTypeOptionsParser.IgnoresSurroundingSpace | worker/impl/parsers/security/xContentTypeOptionsParser.ts:14 | trimming a value that is not blank leaves status and credit unchanged |
| XDnsPrefetchControlParser.Decide | worker/impl/parsers/security/xDnsPrefetchControlParser.ts:14-40 | the value table on the normalised value: `off` or `0` passes with the weight, `on` or `1` is partial with 0.3×weight, anything else is partial with 0.4×weight; one note |
| XDnsPrefetchControlParser.Assess | worker/impl/parsers/security/xDnsPrefetchControlParser.ts:6-40 | satisfies the shared rule contract (absent or empty value, and only that, gives `missing`, 0 and one note; exactly one note; credit within [0, weight] for a non-negative weight); a present value is never a fail; a present value is judged by `Decide` on its trimmed, lower-cased form |
| XDnsPrefetchControlParser.Evaluate | worker/impl/parsers/security/xDnsPrefetchControlParser.ts:5-41 | the rendered X-DNS-Prefetch-Control verdict: same status and credit as `Assess`, the shared rule contract, one note |
| XDnsPrefetchControlParser.DecideIgnoresRaw | worker/impl/parsers/security/xDnsPrefetchControlParser.ts:14-40 | status and credit depend only on the normalised value, never on the raw text quoted in the note |
| XDnsPrefetchControlParser.IgnoresCase | worker/impl/parsers/security/xDnsPrefetchControlParser.ts:14 | changing the letter case of a value (ToUpper) leaves status and credit unchanged |
| XDnsPrefetchControlParser.IgnoresSurroundingSpace | worker/impl/parsers/security/xDnsPrefetchControlParser.ts:14 | trimming a value that is not blank leaves status and credit unchanged |
| XPermittedCrossDomainPoliciesParser.Decide | worker/impl/parsers/security/xPermittedCrossDomainPoliciesParser.ts:14-58 | the value table on the normalised value: `none` passes with the weight, `master-only` is partial with 0.6×weight, `by-content-type` and `by-ftp-filename` are partial with 0.4×weight, `all` fails with 0, anything else is partial with 0.4×weight; one note |
| XPermittedCrossDomainPoliciesParser.Assess | worker/impl/parsers/security/xPermittedCrossDomainPoliciesParser.ts:6-58 | satisfies the shared rule contract (absent or empty value, and only that, gives `missing`, 0 and one note; exactly one note; credit within [0, weight] for a non-negative weight); a present value is judged by `Decide` on its trimmed, lower-cased form |
| XPermittedCrossDomainPoliciesParser.Evaluate | worker/impl/parsers/security/xPermittedCrossDomainPoliciesParser.ts:5-59 | the rendered X-Permitted-Cross-Domain-Policies verdict: same status and credit as `Assess`, the shared rule contract, one note |
| XPermittedCrossDomainPoliciesParser.DecideIgnoresRaw | worker/impl/parsers/security/xPermittedCrossDomainPoliciesParser.ts:14-58 | status and credit depend only on the normalised value, never on the raw text quoted in the note |
| XPermittedCrossDomainPoliciesParser.IgnoresCase | worker/impl/parsers/security/xPermittedCrossDomainPoliciesParser.ts:14 | changing the letter case of a value (ToUpper) leaves status and credit unchanged |
| XPermittedCrossDomainPoliciesParser.IgnoresSurroundingSpace | worker/impl/parsers/security/xPermittedCrossDomainPoliciesParser.ts:14 | trimming a value that is not blank leaves status and credit unchanged |
| PermissionsPolicyParser.Assess | worker/impl/parsers/security/permissionsPolicyParser.ts:6-20 | the shared rule contract with exactly one note; any present value, whatever its content, passes with the full weight; the status is only ever `pass` or `missing` |
| PermissionsPolicyParser.Evaluate | worker/impl/parsers/security/permissionsPolicyParser.ts:5-21 | the rendered Permissions-Policy verdict: same status and credit as `Assess`, the shared rule contract, one note |
| OriginAgentClusterParser.Assess | worker/impl/parsers/security/originAgentClusterParser.ts:6-20 | the shared rule contract with exactly one note; any present value, whatever its content, passes with the full weight; the status is only ever `pass` or `missing` |
| OriginAgentClusterParser.Evaluate | worker/impl/parsers/security/originAgentClusterParser.ts:5-21 | the rendered Origin-Agent-Cluster verdict: same status and credit as `Assess`, the shared rule contract, one note |
| ClearSiteDataParser.ParseTokens | worker/impl/parsers/security/clearSiteDataParser.ts:3-7 | one token per comma-separated entry at most (the entries that clean to nothing are dropped) |
| ClearSiteDataParser.TokensCleaned | worker/impl/parsers/security/clearSiteDataParser.ts:3-7 | every token is non-empty and lower-case, and every entry that is not empty once trimmed, unquoted and lower-cased is among the tokens |
| ClearSiteDataParser.UnknownTokens | worker/impl/parsers/security/clearSiteDataParser.ts:34-45 | exactly the tokens outside {cache, cookies, storage, executioncontexts} and other than `*`, as a sub-list |
| ClearSiteDataParser.Assess | worker/impl/parsers/security/clearSiteDataParser.ts:13-20 | the shared rule contract; a present value is judged on its parsed tokens |
| ClearSiteDataParser.DecideEmpty | worker/impl/parsers/security/clearSiteDataParser.ts:22-32 | no tokens is a fail with 0 and the single "no directives" note |
| ClearSiteDataParser.DecideJudged | worker/impl/parsers/security/clearSiteDataParser.ts:22-62 | a present value is judged: never `missing` or `unknown`, at least one note, credit within [0, weight] |
| ClearSiteDataParser.DecideVerdict | worker/impl/parsers/security/clearSiteDataParser.ts:34-56 | with tokens, the status is never `fail`; it is `pass` iff every token is one of the four allowed tokens; credit is weight for pass and 0.6×weight for partial |
| ClearSiteDataParser.DecideNotes | worker/impl/parsers/security/clearSiteDataParser.ts:47-61 | the first note quotes the value; then come warnings, then information notes, never a warning after an information note; the "clearing scopes" note appears iff there is no `*` |
| ClearSiteDataParser.Evaluate | worker/impl/parsers/security/clearSiteDataParser.ts:13-63 | the step-by-step method returns the rendered `Assess` and so keeps the shared rule contract |
| ClearSiteDataParser.EvaluateTokens | worker/impl/parsers/security/clearSiteDataParser.ts:22-62 | the pushes onto the warning and information lists yield the specified verdict for the token list |
| ReferrerPolicyParser.NormalizePolicyList | worker/impl/parsers/security/referrerPolicyParser.ts:3-7 | at most one policy per comma-separated part |
| ReferrerPolicyParser.PoliciesNormalized | worker/impl/parsers/security/referrerPolicyParser.ts:3-7 | every listed policy is non-empty, trimmed and lower-case |
| ReferrerPolicyParser.Classify | worker/impl/parsers/security/referrerPolicyParser.ts:9-32 | strict iff in the strict set, moderate iff in the moderate set, unsafe iff `unsafe-url`, unknown otherwise |
| ReferrerPolicyParser.ClassesDisjoint | worker/impl/parsers/security/referrerPolicyParser.ts:10-31 | the strict and moderate sets are disjoint and neither holds `unsafe-url`, so the classification is well defined |
| ReferrerPolicyParser.Decide | worker/impl/parsers/security/referrerPolicyParser.ts:45-91 | no policy is a fail with 0 and one note; otherwise the first note names the first policy, a second note warns of several policies iff there is more than one, and the first policy's class gives pass/weight, partial/0.6×weight, fail/0 or partial/0.4×weight |
| ReferrerPolicyParser.Assess | worker/impl/parsers/security/referrerPolicyParser.ts:36-52 | the shared rule contract; a present value is judged on its normalised policy list |
| ReferrerPolicyParser.FirstTokenDecides | worker/impl/parsers/security/referrerPolicyParser.ts:54-91 | two lists with the same first policy get the same status and credit |
| ReferrerPolicyParser.SinglePolicy | worker/impl/parsers/security/referrerPolicyParser.ts:3-7 | a value without a comma gives its trimmed lower-case form, or nothing when blank |
| ReferrerPolicyParser.Evaluate | worker/impl/parsers/security/referrerPolicyParser.ts:36-92 | the method returns the rendered `Assess` and keeps the shared rule contract |
| ReferrerPolicyParser.EvaluatePolicies | worker/impl/parsers/security/referrerPolicyParser.ts:54-91 | the notes pushed and the switch on the class yield the specified verdict |
| StrictTransportSecurityParser.ParseDirectives | worker/impl/parsers/security/strictTransportSecurityParser.ts:3-8 | at most one directive per `;`-separated part |
| StrictTransportSecurityParser.DirectivesCleaned | worker/impl/parsers/security/strictTransportSecurityParser.ts:3-8 | every directive is non-empty, trimmed and lower-case |
| StrictTransportSecurityParser.DirectivesKept | worker/impl/parsers/security/strictTransportSecurityParser.ts:3-8 | every part that is not blank contributes its trimmed lower-case form |
| StrictTransportSecurityParser.FindWithPrefix | worker/impl/parsers/security/strictTransportSecurityParser.ts:11 | a found directive starts with the prefix |
| StrictTransportSecurityParser.FindWithPrefixFirst | worker/impl/parsers/security/strictTransportSecurityParser.ts:11 | nothing is found iff no directive has the prefix; otherwise the first directive with the prefix is found |
| StrictTransportSecurityParser.MatchFromNone | worker/impl/parsers/security/strictTransportSecurityParser.ts:16 | the unanchored regex search fails iff the pattern matches at no position |
| StrictTransportSecurityParser.MatchFromLeftmost | worker/impl/parsers/security/strictTransportSecurityParser.ts:16 | a successful search reports the match at the leftmost matching position |
| StrictTransportSecurityParser.ParseMaxAgeFirst | worker/impl/parsers/security/strictTransportSecurityParser.ts:10-22 | no `max-age` directive iff none starts with `max-age`; otherwise the first such directive decides the outcome (seconds or unparsable) |
| StrictTransportSecurityParser.MatchPlain | worker/impl/parsers/security/strictTransportSecurityParser.ts:16-21 | `max-age=<digits>` reads the decimal value |
| StrictTransportSecurityParser.MatchQuoted | worker/impl/parsers/security/strictTransportSecurityParser.ts:16-21 | `max-age="<digits>"` reads the decimal value |
| StrictTransportSecurityParser.MatchAfterEquals | worker/impl/parsers/security/strictTransportSecurityParser.ts:16 | after `max-age=` the number pattern decides the match |
| StrictTransportSecurityParser.LeadingMaxAge | worker/impl/parsers/security/strictTransportSecurityParser.ts:10-22 | a leading `max-age=<digits>` directive gives that many seconds, whatever follows |
| StrictTransportSecurityParser.MaxAgeFails | worker/impl/parsers/security/strictTransportSecurityParser.ts:43-47 | a fail reason iff max-age is absent, unparsable or below one day (86400 s; 0 included) |
| StrictTransportSecurityParser.MaxAgeWarns | worker/impl/parsers/security/strictTransportSecurityParser.ts:48-55 | a warning iff max-age is at least one day but below one year (31536000 s) |
| StrictTransportSecurityParser.MaxAgeReasons | worker/impl/parsers/security/strictTransportSecurityParser.ts:43-55 | the max-age if-chain pushes exactly the specified fail and warning reasons |
| StrictTransportSecurityParser.Assess | worker/impl/parsers/security/strictTransportSecurityParser.ts:26-33 | the shared rule contract; a present value is judged on its parsed directives |
| StrictTransportSecurityParser.DecideJudged | worker/impl/parsers/security/strictTransportSecurityParser.ts:35-83 | a present value is judged: never `missing` or `unknown`, at least one note, credit within [0, weight] |
| StrictTransportSecurityParser.Verdict | worker/impl/parsers/security/strictTransportSecurityParser.ts:43-66 | fail iff max-age is absent, unparsable or under a day; pass iff max-age is at least a year and `includesubdomains` is present; partial otherwise; credit is weight × (1, 0.6 or 0) |
| StrictTransportSecurityParser.PreloadOnlyInforms | worker/impl/parsers/security/strictTransportSecurityParser.ts:61-63 | `preload` adds an information note and changes neither status nor credit |
| StrictTransportSecurityParser.Notes | worker/impl/parsers/security/strictTransportSecurityParser.ts:68-77 | the first note quotes the raw value; the success line is present iff the status is pass, and then it is last |
| StrictTransportSecurityParser.StrongPolicyPasses | worker/impl/parsers/security/strictTransportSecurityParser.ts:35-66 | `max-age` of at least a year first, with `includesubdomains` among the rest, passes with the full weight |
| StrictTransportSecurityParser.TwoYearsPasses | worker/impl/parsers/security/strictTransportSecurityParser.ts:35-66 | `max-age=63072000; includeSubDomains; preload` passes with the full weight |
| StrictTransportSecurityParser.Evaluate | worker/impl/parsers/security/strictTransportSecurityParser.ts:26-84 | the method returns the rendered `Assess` and keeps the shared rule contract |
| StrictTransportSecurityParser.EvaluateFindings | worker/impl/parsers/security/strictTransportSecurityParser.ts:35-83 | the reason and note pushes yield the specified verdict for the parsed findings |
| ContentSecurityPolicyParser.ExtractDirectives | worker/impl/parsers/security/contentSecurityPolicyParser.ts:6-21 | the loop fills the map that the directive list specifies |
| ContentSecurityPolicyParser.FillDirectives | worker/impl/parsers/security/contentSecurityPolicyParser.ts:10-18 | each iteration stores its directive's entry, so the result is the entries folded in order |
| ContentSecurityPolicyParser.CollectKeys | worker/impl/parsers/security/contentSecurityPolicyParser.ts:10-18 | a name is a key iff some directive carries that name |
| ContentSecurityPolicyParser.LastOccurrenceWins | worker/impl/parsers/security/contentSecurityPolicyParser.ts:10-18 | a key's tokens are those of the last directive with that name |
| ContentSecurityPolicyParser.NormalizeTokenLower | worker/impl/parsers/security/contentSecurityPolicyParser.ts:3-4 | a normalised token is already lower-case |
| ContentSecurityPolicyParser.TokensNormal | worker/impl/parsers/security/contentSecurityPolicyParser.ts:14-15 | the kept tokens are non-empty and normalised |
| ContentSecurityPolicyParser.EntryNormal | worker/impl/parsers/security/contentSecurityPolicyParser.ts:12-16 | a directive's name is lower-case and its tokens are non-empty and normalised |
| ContentSecurityPolicyParser.CollectNormal | worker/impl/parsers/security/contentSecurityPolicyParser.ts:10-18 | folding normal entries gives a map whose names and tokens are normal |
| ContentSecurityPolicyParser.FilledNormal | worker/impl/parsers/security/contentSecurityPolicyParser.ts:10-18 | the map built from any directive list is normal |
| ContentSecurityPolicyParser.DirectivesNormalized | worker/impl/parsers/security/contentSecurityPolicyParser.ts:6-21 | every extracted name is lower-case; every token is non-empty, stripped of quotes and lower-case |
| ContentSecurityPolicyParser.NameNonEmpty | worker/impl/parsers/security/contentSecurityPolicyParser.ts:12-13 | a trimmed non-empty directive has a non-empty name |
| ContentSecurityPolicyParser.DirectiveListTrimmed | worker/impl/parsers/security/contentSecurityPolicyParser.ts:7-9 | the directive list holds only non-empty, trimmed directives |
| ContentSecurityPolicyParser.Get | worker/impl/parsers/security/contentSecurityPolicyParser.ts:105-110 | the lookup finds a directive iff it is present, with its tokens |
| ContentSecurityPolicyParser.Clamp | worker/impl/parsers/security/contentSecurityPolicyParser.ts:45 | the result lies in [0,1], is the value inside [0,1], and is 0 below and 1 above |
| ContentSecurityPolicyParser.CreditWithin | worker/impl/parsers/security/contentSecurityPolicyParser.ts:51-55 | a component earns between 0 and its weight |
| ContentSecurityPolicyParser.EarnedWithin | worker/impl/parsers/security/contentSecurityPolicyParser.ts:47-62 | the earned total lies between 0 and the maximum |
| ContentSecurityPolicyParser.RatioWithin | worker/impl/parsers/security/contentSecurityPolicyParser.ts:57-62 | earned/maximum (0 for a zero maximum) lies in [0,1] |
| ContentSecurityPolicyParser.ScoreTracker.constructor | worker/impl/parsers/security/contentSecurityPolicyParser.ts:47-50 | a fresh tracker has recorded no component |
| ContentSecurityPolicyParser.ScoreTracker.AddComponent | worker/impl/parsers/security/contentSecurityPolicyParser.ts:51-55 | the component is recorded and `earned`, `maximum` grow by its clamped credit and its weight |
| ContentSecurityPolicyParser.ScoreTracker.Finalize | worker/impl/parsers/security/contentSecurityPolicyParser.ts:57-62 | returns the ratio of the recorded components, 0 when the maximum is 0 |
| ContentSecurityPolicyParser.Tag | worker/impl/parsers/security/contentSecurityPolicyParser.ts:67-86 | one note per reason, in order, of the given kind |
| ContentSecurityPolicyParser.TagMember | worker/impl/parsers/security/contentSecurityPolicyParser.ts:67-86 | a tagged note is present iff its reason is |
| ContentSecurityPolicyParser.NotesOrdered | worker/impl/parsers/security/contentSecurityPolicyParser.ts:67-86 | the notes are never empty, are ordered fail, then warning, then information, and never hold the "missing" note |
| ContentSecurityPolicyParser.NotesKeepReasons | worker/impl/parsers/security/contentSecurityPolicyParser.ts:67-86 | a note of a kind is present iff its reason is in that kind's list |
| ContentSecurityPolicyParser.StrictLineIff | worker/impl/parsers/security/contentSecurityPolicyParser.ts:77-84 | the "strict defaults" line is present iff there are neither fail nor warning reasons |
| ContentSecurityPolicyParser.DefaultSection | worker/impl/parsers/security/contentSecurityPolicyParser.ts:112-158 | the default-src component weighs 2 |
| ContentSecurityPolicyParser.ScriptSection | worker/impl/parsers/security/contentSecurityPolicyParser.ts:160-227 | the script-src component weighs 3 |
| ContentSecurityPolicyParser.ScriptFlagsOf | worker/impl/parsers/security/contentSecurityPolicyParser.ts:164-172 | each script-src flag is the matching token test |
| ContentSecurityPolicyParser.ObjectSection | worker/impl/parsers/security/contentSecurityPolicyParser.ts:229-237 | the object-src component weighs 0.8 |
| ContentSecurityPolicyParser.BaseSection | worker/impl/parsers/security/contentSecurityPolicyParser.ts:239-247 | the base-uri component weighs 0.8 |
| ContentSecurityPolicyParser.FrameSection | worker/impl/parsers/security/contentSecurityPolicyParser.ts:249-259 | the frame-ancestors component weighs 1 |
| ContentSecurityPolicyParser.MixedContentSection | worker/impl/parsers/security/contentSecurityPolicyParser.ts:261-268 | the mixed-content component weighs 0.5 |
| ContentSecurityPolicyParser.ReportingSection | worker/impl/parsers/security/contentSecurityPolicyParser.ts:270-275 | the reporting component weighs 0.3 |
| ContentSecurityPolicyParser.Sections | worker/impl/parsers/security/contentSecurityPolicyParser.ts:112-275 | the policy is judged in seven sections |
| ContentSecurityPolicyParser.Components | worker/impl/parsers/security/contentSecurityPolicyParser.ts:112-275 | one score component per section, in order |
| ContentSecurityPolicyParser.ComponentWeights | worker/impl/parsers/security/contentSecurityPolicyParser.ts:112-275 | seven components, each with a positive weight |
| ContentSecurityPolicyParser.CombineJudged | worker/impl/parsers/security/contentSecurityPolicyParser.ts:277-284 | sections with non-negative weights combine to a judged verdict |
| ContentSecurityPolicyParser.DecideJudged | worker/impl/parsers/security/contentSecurityPolicyParser.ts:99-284 | a present policy is judged: never `missing` or `unknown`, at least one note, credit within [0, weight] |
| ContentSecurityPolicyParser.Assess | worker/impl/parsers/security/contentSecurityPolicyParser.ts:90-97 | the shared rule contract; a present value is judged on its extracted directives |
| ContentSecurityPolicyParser.Evaluate | worker/impl/parsers/security/contentSecurityPolicyParser.ts:90-285 | the method returns the rendered `Assess` and keeps the shared rule contract |
| ContentSecurityPolicyParser.EvaluateDirectives | worker/impl/parsers/security/contentSecurityPolicyParser.ts:99-284 | the tracker, the pushes and the final ranking yield the specified verdict for the directive map |
| ContentSecurityPolicyParser.RunSections | worker/impl/parsers/security/contentSecurityPolicyParser.ts:112-284 | running the seven section checks in order on one tracker yields the combination of the seven sections |
| ContentSecurityPolicyParser.CheckDefaultSrc | worker/impl/parsers/security/contentSecurityPolicyParser.ts:112-158 | appends the default-src section's reasons and component |
| ContentSecurityPolicyParser.CheckScriptSrc | worker/impl/parsers/security/contentSecurityPolicyParser.ts:160-227 | appends the script-src section's reasons and component |
| ContentSecurityPolicyParser.ScoreScriptSrc | worker/impl/parsers/security/contentSecurityPolicyParser.ts:174-224 | the script-src scoring chain computes the specified reasons and sub-score |
| ContentSecurityPolicyParser.CheckObjectSrc | worker/impl/parsers/security/contentSecurityPolicyParser.ts:229-237 | appends the object-src section's reasons and component |
| ContentSecurityPolicyParser.CheckBaseUri | worker/impl/parsers/security/contentSecurityPolicyParser.ts:239-247 | appends the base-uri section's reasons and component |
| ContentSecurityPolicyParser.CheckFrameAncestors | worker/impl/parsers/security/contentSecurityPolicyParser.ts:249-259 | appends the frame-ancestors section's reasons and component |
| ContentSecurityPolicyParser.CheckMixedContent | worker/impl/parsers/security/contentSecurityPolicyParser.ts:261-268 | appends the mixed-content section's notes and component |
| ContentSecurityPolicyParser.CheckReporting | worker/impl/parsers/security/contentSecurityPolicyParser.ts:270-275 | appends the reporting section's notes and component |
| ContentSecurityPolicyProperties.DefaultFails | worker/impl/parsers/security/contentSecurityPolicyParser.ts:112-134 | default-src fails iff it is absent or empty, or contains `*` or `http:` |
| ContentSecurityPolicyProperties.DefaultWarns | worker/impl/parsers/security/contentSecurityPolicyParser.ts:136-158 | default-src warns iff it is non-empty and contains `https:`, `data:` or `blob:` |
| ContentSecurityPolicyProperties.ScriptFails | worker/impl/parsers/security/contentSecurityPolicyParser.ts:174-202 | script-src fails iff it (or the default-src serving for it) has `unsafe-inline` without a nonce, hash or `strict-dynamic`, or has `*` or `http:` |
| ContentSecurityPolicyProperties.ScriptWarns | worker/impl/parsers/security/contentSecurityPolicyParser.ts:160-224 | script-src warns iff neither it nor default-src is given, or it has mitigated `unsafe-inline`, `unsafe-eval`, `https:` or a data/blob source |
| ContentSecurityPolicyProperties.ObjectOnlyWarns | worker/impl/parsers/security/contentSecurityPolicyParser.ts:229-237 | object-src never fails, and warns iff it is anything but exactly `none` |
| ContentSecurityPolicyProperties.BaseOnlyWarns | worker/impl/parsers/security/contentSecurityPolicyParser.ts:239-247 | base-uri never fails, and warns iff it is anything but exactly `self` or exactly `none` |
| ContentSecurityPolicyProperties.FrameFails | worker/impl/parsers/security/contentSecurityPolicyParser.ts:249-259 | frame-ancestors fails iff it contains `*` or `http:`, and warns iff it is absent |
| ContentSecurityPolicyProperties.OnlyInform | worker/impl/parsers/security/contentSecurityPolicyParser.ts:261-275 | the mixed-content and reporting sections never fail or warn; they inform iff neither upgrade directive is given, resp. iff a report directive is given |
| ContentSecurityPolicyProperties.NoFails | worker/impl/parsers/security/contentSecurityPolicyParser.ts:112-278 | no fail reason overall iff no section has one |
| ContentSecurityPolicyProperties.NoWarns | worker/impl/parsers/security/contentSecurityPolicyParser.ts:112-278 | no warning overall iff no section has one |
| ContentSecurityPolicyProperties.SevenWithoutFails | worker/impl/parsers/security/contentSecurityPolicyParser.ts:112-278 | for seven sections, no fail reason iff each of the seven has none |
| ContentSecurityPolicyProperties.SevenWithoutWarns | worker/impl/parsers/security/contentSecurityPolicyParser.ts:112-278 | for seven sections, no warning iff each of the seven has none |
| ContentSecurityPolicyProperties.SectionsAt | worker/impl/parsers/security/contentSecurityPolicyParser.ts:105-275 | the seven sections are judged on default-src, the effective script-src, object-src, base-uri, frame-ancestors, the upgrade directives and the report directives |
| ContentSecurityPolicyProperties.DecideFails | worker/impl/parsers/security/contentSecurityPolicyParser.ts:278 | a policy fails iff default-src, script-src or frame-ancestors has a fail condition |
| ContentSecurityPolicyProperties.DecidePasses | worker/impl/parsers/security/contentSecurityPolicyParser.ts:278 | a policy passes iff no section fails or warns |
| ContentSecurityPolicyProperties.StrictNoteIff | worker/impl/parsers/security/contentSecurityPolicyParser.ts:77-84 | the "strict defaults" line appears iff the policy is strict |
| ContentSecurityPolicyProperties.WarnedBy | worker/impl/parsers/security/contentSecurityPolicyParser.ts:112-275 | a warning is raised overall iff some section raises it |
| ContentSecurityPolicyProperties.FailedBy | worker/impl/parsers/security/contentSecurityPolicyParser.ts:112-275 | a fail reason is raised overall iff some section raises it |
| ContentSecurityPolicyProperties.NeitherScriptNorDefault | worker/impl/parsers/security/contentSecurityPolicyParser.ts:106-162 | without script-src and default-src the policy fails, with the missing default-src failure and the undefined script-src warning |
| ContentSecurityPolicyProperties.EmptyDefaultFails | worker/impl/parsers/security/contentSecurityPolicyParser.ts:112-120 | an empty default-src is reported as the missing default-src failure |
| ContentSecurityPolicyProperties.ScriptsDefinedByDefault | worker/impl/parsers/security/contentSecurityPolicyParser.ts:106-162 | with default-src present, a missing script-src raises no undefined-script warning |
| ContentSecurityPolicyProperties.EmptyDefaultSilencesScripts | worker/impl/parsers/security/contentSecurityPolicyParser.ts:106-224 | an empty default-src serving as script-src gives the script section nothing to fail or warn about |
| ContentSecurityPolicyProperties.EmptyDefaultServesScripts | worker/impl/parsers/security/contentSecurityPolicyParser.ts:106-224 | an empty default-src fails the policy but, serving as script-src, raises no script complaint |
| ContentSecurityPolicyProperties.EarnedAll | worker/impl/parsers/security/contentSecurityPolicyParser.ts:51-55 | components that all score 1 earn the maximum |
| ContentSecurityPolicyProperties.MaximumPositive | worker/impl/parsers/security/contentSecurityPolicyParser.ts:51-62 | components with positive weights have a positive maximum |
| ContentSecurityPolicyProperties.FullComponents | worker/impl/parsers/security/contentSecurityPolicyParser.ts:112-275 | a strict policy with a self/none default-src, a nonce, hash or strict-dynamic script-src, `frame-ancestors 'none'`, upgrade-insecure-requests and a report directive scores 1 in all seven components |
| ContentSecurityPolicyProperties.FullCredit | worker/impl/parsers/security/contentSecurityPolicyParser.ts:112-284 | such a policy passes with the full weight |
| SecurityHeaderParsers.Lookup | worker/impl/parsers/security/index.ts:16-30 | a name finds a rule iff some rule has that header name, and then that rule |
| SecurityHeaderParsers.RegistryKeys | worker/impl/parsers/security/index.ts:16-30 | every key equals its rule's header name, and every rule is filed under its name |
| SecurityHeaderParsers.RuleFiled | worker/impl/parsers/security/index.ts:17-29 | each rule is filed under its own header name |
| SecurityHeaderParsers.NamesDistinct | worker/impl/parsers/security/index.ts:17-29 | two rules share a header name iff they are the same rule |
| SecurityHeaderParsers.SameLengthNamesDiffer | worker/impl/parsers/security/index.ts:17-29 | the header names of equal length differ |
| SecurityHeaderParsers.RegistrySize | worker/impl/parsers/security/index.ts:17-29 | the registry holds exactly 13 rules |
| SecurityHeaderParsers.UnknownNameFindsNothing | worker/impl/parsers/security/index.ts:16-30 | a name that no rule carries finds nothing |
| SecurityHeaderParsers.NoXssProtectionRule | worker/impl/parsers/security/index.ts:16-30 | `x-xss-protection`, although in the analyzer catalog, has no rule |
| SecurityHeaderParsers.SpecifiedSound | worker/impl/parsers/security/index.ts:17-29 | every registered rule keeps the shared rule contract |
| ScoreNormalizer.Bound | worker/impl/services/ScoreNormalizerService.ts:31 | clamping to [0,100]: the value inside the range, 0 below, 100 above |
| ScoreNormalizer.Normalize | worker/impl/services/ScoreNormalizerService.ts:15-34 | whenever max ≠ min the normalised score lies in [0,100] |
| ScoreNormalizer.RescaledWithin | worker/impl/services/ScoreNormalizerService.ts:28 | a raw score in [min, max] rescales into [0,100] |
| ScoreNormalizer.ClampInactive | worker/impl/services/ScoreNormalizerService.ts:28-31 | for a raw score in [min, max] the clamp has no effect |
| ScoreNormalizer.Endpoints | worker/impl/services/ScoreNormalizerService.ts:17-28 | with max > min, raw = max gives 100 and raw = min gives 0 |
| ScoreNormalizer.Monotone | worker/impl/services/ScoreNormalizerService.ts:28-31 | with max > min, the score is non-decreasing in the raw score |
| ScoreNormalizer.DivideMonotone | worker/impl/services/ScoreNormalizerService.ts:28 | division by a positive range preserves order |
| HeaderAnalyzer.Lookup | worker/impl/services/HeaderAnalyzerService.ts:42 | the header map lookup finds a value iff the name is a key, and then that value |
| HeaderAnalyzer.Weights | worker/impl/services/HeaderAnalyzerService.ts:85-86 | the weight list of a catalog, in order |
| HeaderAnalyzer.Observe | worker/impl/services/HeaderAnalyzerService.ts:41-79 | one entry per catalog header, in catalog order |
| HeaderAnalyzer.Analysis | worker/impl/services/HeaderAnalyzerService.ts:34-102 | the analysis score lies in [0,100] |
| HeaderAnalyzer.Analyze | worker/impl/services/HeaderAnalyzerService.ts:34-102 | the two loops and the normalisation compute the specified analysis |
| HeaderAnalyzer.CheckSecurityHeaders | worker/impl/services/HeaderAnalyzerService.ts:41-62 | the loop leaves the present catalog headers in `detected` and the absent ones in `missing`, in order, and adds the detected weights to the score |
| HeaderAnalyzer.CheckLeakingHeaders | worker/impl/services/HeaderAnalyzerService.ts:65-79 | the loop leaves the present leaking headers in `leaking`, in order, and adds their (negative) weights |
| HeaderAnalyzer.ScanSecurityMeaning | worker/impl/services/HeaderAnalyzerService.ts:41-62 | the step-by-step scan equals the detected/missing split and the credit of the detected headers |
| HeaderAnalyzer.LeakingStep | worker/impl/services/HeaderAnalyzerService.ts:65-79 | one iteration of the leaking loop extends the leaking list and score by the next catalog header exactly when it is present |
| HeaderAnalyzer.CatalogTotals | worker/impl/services/HeaderAnalyzerService.ts:8-32 | the security weights sum to 47 and the leaking weights to −19, so the raw range is [31, 97] |
| HeaderAnalyzer.PartitionSizes | worker/impl/services/HeaderAnalyzerService.ts:41-62 | every security header is either detected or missing: the two sizes add up to the catalog size |
| HeaderAnalyzer.PresenceDecides | worker/impl/services/HeaderAnalyzerService.ts:42-62 | a catalog header is detected iff its value is present and non-empty, missing iff not |
| HeaderAnalyzer.ObservedWellFormed | worker/impl/services/HeaderAnalyzerService.ts:45-77 | every entry carries its catalog name and weight, the map's value when present, and the loop's leaking flag |
| HeaderAnalyzer.EntryShapes | worker/impl/services/HeaderAnalyzerService.ts:45-77 | detected entries are present and not leaking; missing entries are absent, not leaking and valueless; leaking entries are present and leaking |
| HeaderAnalyzer.CreditWithinGains | worker/impl/services/HeaderAnalyzerService.ts:41-62 | with non-negative weights, the credit of the present headers lies between 0 and the weight total |
| HeaderAnalyzer.CreditWithinLosses | worker/impl/services/HeaderAnalyzerService.ts:65-79 | with non-positive weights, the credit lies between the weight total and 0 |
| HeaderAnalyzer.CreditAllPresent | worker/impl/services/HeaderAnalyzerService.ts:41-79 | when every catalog header is present the credit is the full weight total |
| HeaderAnalyzer.NonePresent | worker/impl/services/HeaderAnalyzerService.ts:41-79 | when no catalog header is present nothing is detected and every entry is missing |
| HeaderAnalyzer.RawScoreWithin | worker/impl/services/HeaderAnalyzerService.ts:38-94 | the raw score lies between the normaliser's min and max, that is within [31, 97] |
| HeaderAnalyzer.ScoreUnclamped | worker/impl/services/HeaderAnalyzerService.ts:89-94 | the score is exactly (raw − 31)/66 × 100: the clamp never applies |
| HeaderAnalyzer.NoHeaders | worker/impl/services/HeaderAnalyzerService.ts:13-94 | an empty header map detects nothing, leaks nothing, lists all 10 security headers as missing, and scores 1900/66 (about 28.79) |
| HeaderAnalyzer.FullMarks | worker/impl/services/HeaderAnalyzerService.ts:41-94 | all security headers present and no leaking header scores 100 with nothing missing or leaking |
| HeaderAnalyzer.NoMarks | worker/impl/services/HeaderAnalyzerService.ts:41-94 | no security header and every leaking header scores 0, with 5 leaking entries |
| HeaderAnalyzer.ObserveIgnores | worker/impl/services/HeaderAnalyzerService.ts:41-79 | adding a header outside a catalog changes none of its entries |
| HeaderAnalyzer.UnrelatedHeader | worker/impl/services/HeaderAnalyzerService.ts:41-79 | a header in neither catalog changes neither the buckets nor the score |
| ReportMapper.Group | worker/impl/mappers/ReportMapper.ts:13-17 | `detected` holds exactly the present, non-leaking entries, `missing` the absent ones and `leaking` the leaking ones |
| ReportMapper.ShareImageUrl | worker/impl/mappers/ReportMapper.ts:20-23 | a share URL exists iff there is a non-empty image key, and it is `https://<cdn>/images/<key>` |
| ReportMapper.ToScanResponse | worker/impl/mappers/ReportMapper.ts:11-33 | hash, URL, creation time and score are copied; headers are grouped; the share URL is derived from the key |
| ReportMapper.ToFetchReportResponse | worker/impl/mappers/ReportMapper.ts:41-45 | the same response as `ToScanResponse` |
| ReportMapper.HeaderAnalysisToEntries | worker/impl/mappers/ReportMapper.ts:51-57 | the entries are detected, then missing, then leaking |
| ReportMapper.RegroupRoundTrip | worker/impl/mappers/ReportMapper.ts:13-57 | regrouping the flattened groups of an analyzer-shaped result gives back the three groups |
| ReportMapper.DetectedBack | worker/impl/mappers/ReportMapper.ts:13-57 | the detected filter recovers exactly the detected group |
| ReportMapper.MissingBack | worker/impl/mappers/ReportMapper.ts:13-57 | the missing filter recovers exactly the missing group |
| ReportMapper.LeakingBack | worker/impl/mappers/ReportMapper.ts:13-57 | the leaking filter recovers exactly the leaking group |
| ReportMapper.AnalysisShaped | worker/impl/services/HeaderAnalyzerService.ts:41-79 | every analysis the analyzer produces is analyzer-shaped |
| ReportMapper.StoredAnalysisRegroups | worker/usecases/ScanUrlUseCase.ts:52-56 | a report stored from an analysis is served with that analysis's three groups |
| ReportMapper.AbsentLeakingInTwoGroups | worker/impl/mappers/ReportMapper.ts:13-17 | an absent entry marked leaking is listed under both `missing` and `leaking` |
| UrlValidator.Validate | worker/impl/utils/UrlValidator.ts:25-63 | accepted iff non-empty, at most 2048 UTF-16 units, parsable after preparation, with protocol `http:` or `https:`, and with a permitted host; then the parsed serialisation; every refusal is `INVALID_URL` |
| UrlValidator.PreparedHasScheme | worker/impl/utils/UrlValidator.ts:32-37 | the prepared URL always starts with `http://` or `https://` |
| UrlValidator.SchemeAddedIff | worker/impl/utils/UrlValidator.ts:32-37 | `https://` is put in front of the trimmed input iff it starts with neither scheme; otherwise the trimmed input is kept |
| UrlValidator.SplitQuad | worker/impl/utils/UrlValidator.ts:8-17 | a dotted quad of digit runs splits into its four parts |
| UrlValidator.AddressRefusedIff | worker/impl/utils/UrlValidator.ts:8-17 | a dotted-decimal host is refused iff it is in 127/8, 10/8, 172.16–31, 192.168 or 169.254 |
| UrlValidator.Block172Edges | worker/impl/utils/UrlValidator.ts:13 | 172.15.x.x and 172.32.x.x are allowed; 172.16.x.x and 172.31.x.x are refused |
| UrlValidator.LocalhostRefused | worker/impl/utils/UrlValidator.ts:53-59 | a URL whose host is `localhost` is refused |
| FetchStatsUseCase.ValidateQuery | worker/usecases/FetchStatsUseCase.ts:32-56 | the first failing check, in order: a bad `from`, then a bad `to`, then from > to, then a range over 31536000 s; none iff the query is accepted |
| FetchStatsUseCase.Execute | worker/usecases/FetchStatsUseCase.ts:15-25 | an accepted query gets the repository's answer unchanged; otherwise the validation error |
| FetchStatsUseCase.OneYearEdge | worker/usecases/FetchStatsUseCase.ts:52-55 | a range of exactly one year is accepted and one second more is too large |
| FetchStatsUseCase.SingleBound | worker/usecases/FetchStatsUseCase.ts:47-53 | with only one good bound the pairwise checks are skipped |
| FetchStatsUseCase.FromCheckedFirst | worker/usecases/FetchStatsUseCase.ts:34-44 | a bad `from` is reported even when `to` is bad too |
| FetchReportsUseCase.EffectiveLimit | worker/usecases/FetchReportsUseCase.ts:24 | the limit clamped to [20, 100]: below gives 20, above gives 100, inside is unchanged |
| FetchReportsUseCase.EffectiveLimitIdempotent | worker/usecases/FetchReportsUseCase.ts:24 | clamping twice is clamping once |
| FetchReportsUseCase.EffectiveLimitMonotone | worker/usecases/FetchReportsUseCase.ts:24 | clamping preserves order |
| FetchReportsUseCase.Execute | worker/usecases/FetchReportsUseCase.ts:19-33 | the repository is asked once with a limit in [20, 100] (the given one, 20 or 100) and the unchanged sort field, direction and cursor, and its answer is returned |
| ReportsController.ParseInt | worker/impl/controllers/ReportsController.ts:31 | `parseInt` yields a number iff digits follow the leading white space and an optional sign |
| ReportsController.ParseLimit | worker/impl/controllers/ReportsController.ts:24-36 | absent or empty gives 20; otherwise accepted iff `parseInt` gives a number in 1..100, which is then the limit; a refusal is the 400 limit error |
| ReportsController.ParseSort | worker/impl/controllers/ReportsController.ts:26-55 | accepted iff the sort (default `created_at`) is `created_at`, `score`, `-created_at` or `-score`; a refusal is the 400 sort error |
| ReportsController.ParseQuery | worker/impl/controllers/ReportsController.ts:21-63 | a query model iff both limit and sort are accepted, holding them and the unchanged cursor; the limit is checked first; every refusal is a 400 `INVALID_PARAMETERS` |
| ReportsController.DefaultQuery | worker/impl/controllers/ReportsController.ts:24-55 | no parameters gives 20 reports by `created_at` ascending with no cursor |
| ReportsController.SortTable | worker/impl/controllers/ReportsController.ts:39-55 | the four accepted sort spellings and their field and direction |
| ReportsController.TrailingGarbageIgnored | worker/impl/controllers/ReportsController.ts:31 | `"50x"` is read as 50 and accepted |
| ReportsController.DigitsParse | worker/impl/controllers/ReportsController.ts:31 | a string of digits parses as its decimal value |
| ReportsController.DecimalParses | worker/impl/controllers/ReportsController.ts:31 | the decimal spelling of a number parses back to it |
| ReportsController.SmallLimitRaised | worker/impl/controllers/ReportsController.ts:32-34 | a limit below 20 passes the controller but the use case raises it to 20 |
| FetchReportUseCase.Execute | worker/usecases/FetchReportUseCase.ts:19-30 | refused with `INVALID_HASH_FORMAT` iff the hash is not 32 hexadecimal digits; otherwise the repository's answer, null included, unchanged |
| FetchReportUseCase.EmptyHashRefused | worker/usecases/FetchReportUseCase.ts:21 | the empty hash is refused |
| FetchReportUseCase.CaseInsensitive | worker/usecases/FetchReportUseCase.ts:21 | a hash passes iff its lower-case form does (the `i` flag) |
| FetchReportUseCase.LookupAsGiven | worker/usecases/FetchReportUseCase.ts:26-29 | a valid hash, and its lower-case form, are each looked up as given |
| FetchReportUseCase.LengthIsExact | worker/usecases/FetchReportUseCase.ts:21 | a hash of any length but 32 is refused |
| ErrorHandler.InfoFor | worker/impl/middleware/errorHandler.ts:56-62 | a registered code gets its table entry; any other code gets 500 with the internal-error message |
| ErrorHandler.ErrorCode | worker/impl/middleware/errorHandler.ts:35 | an `Error`'s message is the code; any other thrown value gives `INTERNAL_ERROR` |
| ErrorHandler.Handle | worker/impl/middleware/errorHandler.ts:29-48 | the body's code is the raw code; a registered code gets its status and message; an unregistered code gets 500 and the internal-error message |
| ErrorHandler.CreateErrorResponse | worker/impl/middleware/errorHandler.ts:56-62 | the code is kept even when unknown; a non-empty custom message wins, otherwise the mapped message |
| ErrorHandler.RegisteredStatuses | worker/impl/middleware/errorHandler.ts:11-24 | every status in the table is 400, 401, 404, 429, 500 or 504 |
| ErrorHandler.ReplyStatusAllowed | worker/impl/middleware/errorHandler.ts:29-48 | every reply has one of those statuses |
| ErrorHandler.StatusTable | worker/impl/middleware/errorHandler.ts:11-24 | `INVALID_URL` and `INVALID_HASH_FORMAT` 400, `NOT_FOUND` 404, `UNAUTHORIZED` 401, `RATE_LIMIT_EXCEEDED` 429, `SCAN_TIMEOUT` 504, `INTERNAL_ERROR` 500 |
| ErrorHandler.NonErrorIsInternal | worker/impl/middleware/errorHandler.ts:35-46 | a thrown non-`Error` gives 500 with `INTERNAL_ERROR` |
| ErrorHandler.UnknownCodeKept | worker/impl/middleware/errorHandler.ts:35-46 | an unregistered message gives 500 with the internal-error text, but keeps the message as the code |
| ErrorHandler.HelperAgreesWithMiddleware | worker/impl/middleware/errorHandler.ts:36-62 | without a custom message the helper builds the same body as the middleware |
| ErrorHandler.UseCaseCodesAreClientErrors | worker/impl/middleware/errorHandler.ts:11-24 | the validation codes of the URL validator and the use cases all map to 400 |
| Strings.TrimStart | worker/impl/controllers/ReportsController.ts:31 | removes exactly the leading JavaScript white space (also the `\s*` of the max-age pattern) |
| Strings.TrimEnd | worker/impl/parsers/security/xFrameOptionsParser.ts:14 | removes exactly the trailing JavaScript white space |
| Strings.Trim | worker/impl/parsers/security/xFrameOptionsParser.ts:14 | the result starts and ends with something other than white space |
| Strings.TrimIdempotent | worker/impl/parsers/security/xFrameOptionsParser.ts:14 | trimming twice is trimming once |
| Strings.Split | worker/impl/parsers/security/referrerPolicyParser.ts:4 | `split` gives at least one part, none holding the separator |
| Strings.SplitJoin | worker/impl/parsers/security/referrerPolicyParser.ts:4 | joining the parts with the separator gives back the string |
| Strings.ToDecimal | worker/impl/controllers/ReportsController.ts:31 | a natural number's decimal spelling is a digit string without leading zero |
| Strings.DecimalRoundTrip | worker/impl/controllers/ReportsController.ts:31 | reading the decimal spelling gives back the number |
| Strings.LeadingDigits | worker/impl/controllers/ReportsController.ts:31 | the longest run of digits at the front |
| Strings.Utf16Length | worker/impl/utils/UrlValidator.ts:27 | a string's length in UTF-16 units lies between its length in code points and twice that |

## Left out

- Floating point: weights, multipliers, sub-scores and the normalised score are exact reals. IEEE-754 rounding is not modelled, and neither is the NaN or Infinity that a zero range would produce.
- ScoreNormalizer.Normalize: requires max ≠ min. The source divides by the range unguarded; the analyzer's own catalogs always give 97 ≠ 31 (`HeaderAnalyzer.CatalogTotals`).
- Note texts: each rule's notes are a datatype rendered by its `Text` function. The properties speak of which notes appear and in what order; the wording of each message is only in `Text`.
- String handling: case mapping is ASCII-only. JavaScript's `/\s+/` split of a CSP directive is modelled as a split on each white-space character followed by dropping empty pieces, which yields the same tokens for a trimmed directive.
- ClearSiteDataParser.ParseTokens: its own contract only bounds the count; the cleaning of each entry is stated by `ClearSiteDataParser.TokensCleaned`.
- ReferrerPolicyParser.NormalizePolicyList: its own contract only bounds the count; the normal form is stated by `ReferrerPolicyParser.PoliciesNormalized`.
- StrictTransportSecurityParser.ParseDirectives: its own contract only bounds the count; `DirectivesCleaned` and `DirectivesKept` state the rest.
- Method structure: each step-by-step `evaluate` is split into a top method and helper methods, one per section or per group of checks. The helpers are proved against the same specification functions, and pushes happen in the source's order on local sequences.
- HeaderAnalyzer.Analyze: its two loops are helper methods generic over the catalog. They are proved for any catalog and then applied to the two constant catalogs.
- Logging: the `console.log` calls (worker/impl/services/HeaderAnalyzerService.ts:82, the error middleware and the controller) have no effect on results and are not modelled.
- `new URL`: an uninterpreted parameter returning protocol, hostname and serialisation. The WHATWG parsing rules are not modelled. UrlValidator's `checkUrlAccessibility` (worker/impl/utils/UrlValidator.ts:71 onward) issues network requests and is not modelled.
- Repositories and asynchrony: `findByHash`, `findPaginated` and the statistics query are function parameters; promises, `async` and database access are not modelled.
- ErrorHandler.InfoFor: the JavaScript object lookup also finds inherited prototype keys such as `constructor`. The model treats the table as a plain map with only its own entries.
- Hono plumbing: the middleware's `next()` wrapper, the `c.json` calls, the response headers and the controller's catch-all 500 are not modelled. `toReportsResponseDTO` is not part of this model. The stored report's `deleteToken` is kept in the entity but is not part of the served response.
- FetchReportUseCase.Execute: the `!hash` / `typeof hash !== 'string'` guard is subsumed by the `string` type plus the format check; the empty string is refused by the format check (`EmptyHashRefused`).
- The scan orchestration (`ScanUrlUseCase`), report deletion, HTTP fetching, image generation, persistence, authentication, routing, configuration loading and the React front end are outside this model. Only ScanUrlUseCase's concatenation of the three groups is used, in `ReportMapper.StoredAnalysisRegroups`.
