/**
 * The registry of header rules: each rule is filed under its own header name, so
 * looking a header up by name finds the rule that evaluates it.
 */
module SecurityHeaderParsers {
  import opened Wrappers
  import opened HeaderParser
  import ContentSecurityPolicyParser
  import StrictTransportSecurityParser
  import PermissionsPolicyParser
  import ReferrerPolicyParser
  import XContentTypeOptionsParser
  import CrossOriginOpenerPolicyParser
  import CrossOriginEmbedderPolicyParser
  import CrossOriginResourcePolicyParser
  import XFrameOptionsParser
  import ClearSiteDataParser
  import OriginAgentClusterParser
  import XPermittedCrossDomainPoliciesParser
  import XDnsPrefetchControlParser

  /** The thirteen rules. */
  datatype Rule =
    | ContentSecurityPolicy
    | StrictTransportSecurity
    | PermissionsPolicy
    | ReferrerPolicy
    | XContentTypeOptions
    | CrossOriginOpenerPolicy
    | CrossOriginEmbedderPolicy
    | CrossOriginResourcePolicy
    | XFrameOptions
    | ClearSiteData
    | OriginAgentCluster
    | XPermittedCrossDomainPolicies
    | XDnsPrefetchControl

  /** The rule's `headerName`. */
  function HeaderNameOf(rule: Rule): string
  {
    match rule
    case ContentSecurityPolicy => ContentSecurityPolicyParser.HeaderName
    case StrictTransportSecurity => StrictTransportSecurityParser.HeaderName
    case PermissionsPolicy => PermissionsPolicyParser.HeaderName
    case ReferrerPolicy => ReferrerPolicyParser.HeaderName
    case XContentTypeOptions => XContentTypeOptionsParser.HeaderName
    case CrossOriginOpenerPolicy => CrossOriginOpenerPolicyParser.HeaderName
    case CrossOriginEmbedderPolicy => CrossOriginEmbedderPolicyParser.HeaderName
    case CrossOriginResourcePolicy => CrossOriginResourcePolicyParser.HeaderName
    case XFrameOptions => XFrameOptionsParser.HeaderName
    case ClearSiteData => ClearSiteDataParser.HeaderName
    case OriginAgentCluster => OriginAgentClusterParser.HeaderName
    case XPermittedCrossDomainPolicies => XPermittedCrossDomainPoliciesParser.HeaderName
    case XDnsPrefetchControl => XDnsPrefetchControlParser.HeaderName
  }

  /** `securityHeaderParsers`: every rule keyed by its `headerName`. */
  const Registry: map<string, Rule> := map[
    HeaderNameOf(ContentSecurityPolicy) := ContentSecurityPolicy,
    HeaderNameOf(StrictTransportSecurity) := StrictTransportSecurity,
    HeaderNameOf(PermissionsPolicy) := PermissionsPolicy,
    HeaderNameOf(ReferrerPolicy) := ReferrerPolicy,
    HeaderNameOf(XContentTypeOptions) := XContentTypeOptions,
    HeaderNameOf(CrossOriginOpenerPolicy) := CrossOriginOpenerPolicy,
    HeaderNameOf(CrossOriginEmbedderPolicy) := CrossOriginEmbedderPolicy,
    HeaderNameOf(CrossOriginResourcePolicy) := CrossOriginResourcePolicy,
    HeaderNameOf(XFrameOptions) := XFrameOptions,
    HeaderNameOf(ClearSiteData) := ClearSiteData,
    HeaderNameOf(OriginAgentCluster) := OriginAgentCluster,
    HeaderNameOf(XPermittedCrossDomainPolicies) := XPermittedCrossDomainPolicies,
    HeaderNameOf(XDnsPrefetchControl) := XDnsPrefetchControl
  ]

  /** `securityHeaderParsers[name]`: the rule filed under `name`, if any. */
  function Lookup(name: string): (r: Option<Rule>)
    ensures r.Some? <==> exists rule :: HeaderNameOf(rule) == name
    ensures r.Some? ==> HeaderNameOf(r.value) == name
  {
    RegistryKeys();
    if name in Registry then Some(Registry[name]) else None
  }

  /**
   * What `parser.evaluate(value, context)` returns for the rule: its assessment with the
   * notes rendered as text (for the rules whose `evaluate` is a method, that method is
   * proved to return exactly this).
   */
  function Specified(rule: Rule, value: Option<string>, weight: real): HeaderEvaluation
  {
    match rule
    case ContentSecurityPolicy =>
      Render(ContentSecurityPolicyParser.Assess(value, weight), ContentSecurityPolicyParser.Text)
    case StrictTransportSecurity =>
      Render(StrictTransportSecurityParser.Assess(value, weight), StrictTransportSecurityParser.Text)
    case PermissionsPolicy =>
      Render(PermissionsPolicyParser.Assess(value, weight), PermissionsPolicyParser.Text)
    case ReferrerPolicy =>
      Render(ReferrerPolicyParser.Assess(value, weight), ReferrerPolicyParser.Text)
    case XContentTypeOptions =>
      Render(XContentTypeOptionsParser.Assess(value, weight), XContentTypeOptionsParser.Text)
    case CrossOriginOpenerPolicy =>
      Render(CrossOriginOpenerPolicyParser.Assess(value, weight), CrossOriginOpenerPolicyParser.Text)
    case CrossOriginEmbedderPolicy =>
      Render(CrossOriginEmbedderPolicyParser.Assess(value, weight), CrossOriginEmbedderPolicyParser.Text)
    case CrossOriginResourcePolicy =>
      Render(CrossOriginResourcePolicyParser.Assess(value, weight), CrossOriginResourcePolicyParser.Text)
    case XFrameOptions =>
      Render(XFrameOptionsParser.Assess(value, weight), XFrameOptionsParser.Text)
    case ClearSiteData =>
      Render(ClearSiteDataParser.Assess(value, weight), ClearSiteDataParser.Text)
    case OriginAgentCluster =>
      Render(OriginAgentClusterParser.Assess(value, weight), OriginAgentClusterParser.Text)
    case XPermittedCrossDomainPolicies =>
      Render(XPermittedCrossDomainPoliciesParser.Assess(value, weight), XPermittedCrossDomainPoliciesParser.Text)
    case XDnsPrefetchControl =>
      Render(XDnsPrefetchControlParser.Assess(value, weight), XDnsPrefetchControlParser.Text)
  }

  /** Every rule keeps the shared contract. */
  lemma SpecifiedSound(rule: Rule, value: Option<string>, weight: real)
    ensures Sound(value, weight, Specified(rule, value, weight))
  {
    match rule
    case ContentSecurityPolicy =>
      RenderSound(value, weight, ContentSecurityPolicyParser.Assess(value, weight), ContentSecurityPolicyParser.Text);
    case StrictTransportSecurity =>
      RenderSound(value, weight, StrictTransportSecurityParser.Assess(value, weight), StrictTransportSecurityParser.Text);
    case PermissionsPolicy =>
      RenderSound(value, weight, PermissionsPolicyParser.Assess(value, weight), PermissionsPolicyParser.Text);
    case ReferrerPolicy =>
      RenderSound(value, weight, ReferrerPolicyParser.Assess(value, weight), ReferrerPolicyParser.Text);
    case XContentTypeOptions =>
      RenderSound(value, weight, XContentTypeOptionsParser.Assess(value, weight), XContentTypeOptionsParser.Text);
    case CrossOriginOpenerPolicy =>
      RenderSound(value, weight, CrossOriginOpenerPolicyParser.Assess(value, weight), CrossOriginOpenerPolicyParser.Text);
    case CrossOriginEmbedderPolicy =>
      RenderSound(value, weight, CrossOriginEmbedderPolicyParser.Assess(value, weight), CrossOriginEmbedderPolicyParser.Text);
    case CrossOriginResourcePolicy =>
      RenderSound(value, weight, CrossOriginResourcePolicyParser.Assess(value, weight), CrossOriginResourcePolicyParser.Text);
    case XFrameOptions =>
      RenderSound(value, weight, XFrameOptionsParser.Assess(value, weight), XFrameOptionsParser.Text);
    case ClearSiteData =>
      RenderSound(value, weight, ClearSiteDataParser.Assess(value, weight), ClearSiteDataParser.Text);
    case OriginAgentCluster =>
      RenderSound(value, weight, OriginAgentClusterParser.Assess(value, weight), OriginAgentClusterParser.Text);
    case XPermittedCrossDomainPolicies =>
      RenderSound(value, weight, XPermittedCrossDomainPoliciesParser.Assess(value, weight), XPermittedCrossDomainPoliciesParser.Text);
    case XDnsPrefetchControl =>
      RenderSound(value, weight, XDnsPrefetchControlParser.Assess(value, weight), XDnsPrefetchControlParser.Text);
  }

  // ---------------------------------------------------------------- properties

  /** Every key is the `headerName` of the rule it maps to, and every rule is filed under its name. */
  lemma RegistryKeys()
    ensures forall name :: name in Registry ==> HeaderNameOf(Registry[name]) == name
    ensures forall rule :: HeaderNameOf(rule) in Registry && Registry[HeaderNameOf(rule)] == rule
  {
    forall rule: Rule
      ensures HeaderNameOf(rule) in Registry && Registry[HeaderNameOf(rule)] == rule
    {
      RuleFiled(rule);
    }
  }

  lemma RuleFiled(rule: Rule)
    ensures HeaderNameOf(rule) in Registry && Registry[HeaderNameOf(rule)] == rule
  {
    SameLengthNamesDiffer();
  }

  /** Distinct rules answer to distinct header names. */
  lemma NamesDistinct(a: Rule, b: Rule)
    ensures HeaderNameOf(a) == HeaderNameOf(b) <==> a == b
  {
    SameLengthNamesDiffer();
  }

  /** The names of equal length differ early: only these pairs need more than their lengths. */
  lemma SameLengthNamesDiffer()
    ensures HeaderNameOf(ReferrerPolicy) != HeaderNameOf(XFrameOptions)
    ensures HeaderNameOf(ReferrerPolicy) != HeaderNameOf(ClearSiteData)
    ensures HeaderNameOf(XFrameOptions) != HeaderNameOf(ClearSiteData)
    ensures HeaderNameOf(XContentTypeOptions) != HeaderNameOf(XDnsPrefetchControl)
    ensures HeaderNameOf(CrossOriginEmbedderPolicy) != HeaderNameOf(CrossOriginResourcePolicy)
  {
    assert HeaderNameOf(ReferrerPolicy)[0] != HeaderNameOf(XFrameOptions)[0];
    assert HeaderNameOf(ReferrerPolicy)[0] != HeaderNameOf(ClearSiteData)[0];
    assert HeaderNameOf(XFrameOptions)[0] != HeaderNameOf(ClearSiteData)[0];
    assert HeaderNameOf(XContentTypeOptions)[2] != HeaderNameOf(XDnsPrefetchControl)[2];
    assert HeaderNameOf(CrossOriginEmbedderPolicy)[13] != HeaderNameOf(CrossOriginResourcePolicy)[13];
  }

  /** Thirteen entries. */
  lemma RegistrySize()
    ensures |Registry| == 13
  {
    SameLengthNamesDiffer();
    var m: map<string, Rule> := map[];
    assert HeaderNameOf(ContentSecurityPolicy) !in m;
    m := m[HeaderNameOf(ContentSecurityPolicy) := ContentSecurityPolicy];
    assert |m| == 1;
    assert HeaderNameOf(StrictTransportSecurity) !in m;
    m := m[HeaderNameOf(StrictTransportSecurity) := StrictTransportSecurity];
    assert |m| == 2;
    assert HeaderNameOf(PermissionsPolicy) !in m;
    m := m[HeaderNameOf(PermissionsPolicy) := PermissionsPolicy];
    assert |m| == 3;
    assert HeaderNameOf(ReferrerPolicy) !in m;
    m := m[HeaderNameOf(ReferrerPolicy) := ReferrerPolicy];
    assert |m| == 4;
    assert HeaderNameOf(XContentTypeOptions) !in m;
    m := m[HeaderNameOf(XContentTypeOptions) := XContentTypeOptions];
    assert |m| == 5;
    assert HeaderNameOf(CrossOriginOpenerPolicy) !in m;
    m := m[HeaderNameOf(CrossOriginOpenerPolicy) := CrossOriginOpenerPolicy];
    assert |m| == 6;
    assert HeaderNameOf(CrossOriginEmbedderPolicy) !in m;
    m := m[HeaderNameOf(CrossOriginEmbedderPolicy) := CrossOriginEmbedderPolicy];
    assert |m| == 7;
    assert HeaderNameOf(CrossOriginResourcePolicy) !in m;
    m := m[HeaderNameOf(CrossOriginResourcePolicy) := CrossOriginResourcePolicy];
    assert |m| == 8;
    assert HeaderNameOf(XFrameOptions) !in m;
    m := m[HeaderNameOf(XFrameOptions) := XFrameOptions];
    assert |m| == 9;
    assert HeaderNameOf(ClearSiteData) !in m;
    m := m[HeaderNameOf(ClearSiteData) := ClearSiteData];
    assert |m| == 10;
    assert HeaderNameOf(OriginAgentCluster) !in m;
    m := m[HeaderNameOf(OriginAgentCluster) := OriginAgentCluster];
    assert |m| == 11;
    assert HeaderNameOf(XPermittedCrossDomainPolicies) !in m;
    m := m[HeaderNameOf(XPermittedCrossDomainPolicies) := XPermittedCrossDomainPolicies];
    assert |m| == 12;
    assert HeaderNameOf(XDnsPrefetchControl) !in m;
    m := m[HeaderNameOf(XDnsPrefetchControl) := XDnsPrefetchControl];
    assert |m| == 13;
    assert m == Registry;
  }

  /** A name among none of the rules finds nothing. */
  lemma UnknownNameFindsNothing(name: string)
    requires forall rule :: HeaderNameOf(rule) != name
    ensures Lookup(name) == None
  {
  }

  /** `x-xss-protection` has no rule. */
  lemma NoXssProtectionRule()
    ensures Lookup("x-xss-protection") == None
  {
    forall rule: Rule
      ensures HeaderNameOf(rule) != "x-xss-protection"
    {
    }
  }
}
