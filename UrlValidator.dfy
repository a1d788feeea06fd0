/**
 * The check a URL passes before it is scanned: a length limit, a default `https://`
 * scheme, a parse (the WHATWG URL parser, here a parameter), an http(s) protocol, and
 * a hostname that is neither `localhost` nor a dotted-decimal address in a loopback,
 * private or link-local block.
 */
module UrlValidator {
  import opened Wrappers
  import opened Strings

  /** What the validator reads of a parsed URL: the protocol, the hostname and the serialisation. */
  datatype ParsedUrl = ParsedUrl(protocol: string, hostname: string, href: string)

  /** The URL parser: `None` where `new URL` throws. */
  type UrlParser = string -> Option<ParsedUrl>

  const MaxUrlLength: nat := 2048
  const ValidProtocols: seq<string> := ["http:", "https:"]
  const InvalidUrl: string := "INVALID_URL"

  /** The input after trimming, with `https://` put in front unless it already starts with `http://` or `https://`. */
  function Prepared(url: string): string
  {
    var trimmed := Trim(url);
    if !("http://" <= trimmed) && !("https://" <= trimmed) then "https://" + trimmed else trimmed
  }

  /** `\d+`: one or more ASCII digits. */
  predicate DigitRun(s: string)
  {
    |s| > 0 && AllDigits(s)
  }

  /** `\d+\.\d+\.\d+\.\d+`, anchored at both ends: four digit runs joined by dots. */
  predicate DottedQuad(host: string)
  {
    var parts := Split(host, '.');
    |parts| == 4 && DigitRun(parts[0]) && DigitRun(parts[1]) && DigitRun(parts[2]) && DigitRun(parts[3])
  }

  /** `1[6-9]|2\d|3[0-1]`: the second octets 16 to 31, written with two digits. */
  predicate SecondOctetOf172(s: string)
  {
    && |s| == 2
    && ((s[0] == '1' && '6' <= s[1] <= '9') || (s[0] == '2' && IsDigit(s[1])) || (s[0] == '3' && '0' <= s[1] <= '1'))
  }

  /** The five patterns: 127.x.x.x, 10.x.x.x, 172.16-31.x.x, 192.168.x.x and 169.254.x.x. */
  predicate PrivateAddress(host: string)
  {
    && DottedQuad(host)
    && var parts := Split(host, '.');
       || parts[0] == "127"
       || parts[0] == "10"
       || (parts[0] == "172" && SecondOctetOf172(parts[1]))
       || (parts[0] == "192" && parts[1] == "168")
       || (parts[0] == "169" && parts[1] == "254")
  }

  predicate ForbiddenHost(host: string)
  {
    host == "localhost" || PrivateAddress(host)
  }

  /** `validate`: the serialised URL, or `INVALID_URL` at the first check that fails. */
  function Validate(url: string, parse: UrlParser): (r: Result<string, string>)
    ensures r.Err? ==> r.error == InvalidUrl
    ensures url == "" || Utf16Length(url) > MaxUrlLength ==> r.Err?
    ensures r.Ok? <==> && url != "" && Utf16Length(url) <= MaxUrlLength
                       && parse(Prepared(url)).Some?
                       && parse(Prepared(url)).value.protocol in ValidProtocols
                       && !ForbiddenHost(parse(Prepared(url)).value.hostname)
    ensures r.Ok? ==> r.value == parse(Prepared(url)).value.href
  {
    if url == "" || Utf16Length(url) > MaxUrlLength then Err(InvalidUrl)
    else
      match parse(Prepared(url))
      case None => Err(InvalidUrl)
      case Some(parsed) =>
        if parsed.protocol !in ValidProtocols then Err(InvalidUrl)
        else if ForbiddenHost(parsed.hostname) then Err(InvalidUrl)
        else Ok(parsed.href)
  }

  // ---------------------------------------------------------------- properties

  /** What is handed to the parser always starts with `http://` or `https://`. */
  lemma PreparedHasScheme(url: string)
    ensures "http://" <= Prepared(url) || "https://" <= Prepared(url)
  {
    var trimmed := Trim(url);
    if !("http://" <= trimmed) && !("https://" <= trimmed) {
      assert ("https://" + trimmed)[..8] == "https://";
    }
  }

  /** `https://` is put in front exactly when the trimmed input starts with neither scheme. */
  lemma SchemeAddedIff(url: string)
    ensures Prepared(url) == "https://" + Trim(url) <==> !("http://" <= Trim(url)) && !("https://" <= Trim(url))
    ensures Prepared(url) != "https://" + Trim(url) ==> Prepared(url) == Trim(url)
  {
    var trimmed := Trim(url);
    assert |"https://" + trimmed| == |trimmed| + 8;
  }

  lemma NoDot(s: string)
    requires DigitRun(s)
    ensures '.' !in s
  {
  }

  /** Four digit runs joined by dots split back into those four runs. */
  lemma SplitQuad(a: string, b: string, c: string, d: string)
    requires DigitRun(a) && DigitRun(b) && DigitRun(c) && DigitRun(d)
    ensures Split(a + "." + b + "." + c + "." + d, '.') == [a, b, c, d]
  {
    QuadNested(a, b, c, d);
    SplitNested(a, b, c, d);
  }

  lemma QuadNested(a: string, b: string, c: string, d: string)
    ensures a + "." + b + "." + c + "." + d == a + "." + (b + "." + (c + "." + d))
  {
  }

  lemma SplitNested(a: string, b: string, c: string, d: string)
    requires DigitRun(a) && DigitRun(b) && DigitRun(c) && DigitRun(d)
    ensures Split(a + "." + (b + "." + (c + "." + d)), '.') == [a, b, c, d]
  {
    NoDot(d);
    SplitNoSeparator(d, '.');
    SplitStep(c, d);
    SplitStep(b, c + "." + d);
    SplitStep(a, b + "." + (c + "." + d));
    assert [a] + ([b] + ([c] + [d])) == [a, b, c, d];
  }

  /** A leading digit run and its dot split off as the first part. */
  lemma SplitStep(x: string, rest: string)
    requires DigitRun(x)
    ensures Split(x + "." + rest, '.') == [x] + Split(rest, '.')
  {
    NoDot(x);
    SplitCons(x, '.', rest);
    assert x + "." + rest == x + ['.'] + rest;
  }

  /** Which dotted-decimal hosts are refused, by their first two runs. */
  lemma AddressRefusedIff(a: string, b: string, c: string, d: string)
    requires DigitRun(a) && DigitRun(b) && DigitRun(c) && DigitRun(d)
    ensures ForbiddenHost(a + "." + b + "." + c + "." + d)
        <==> || a == "127" || a == "10" || (a == "172" && SecondOctetOf172(b))
             || (a == "192" && b == "168") || (a == "169" && b == "254")
  {
    SplitQuad(a, b, c, d);
    var host := a + "." + b + "." + c + "." + d;
    assert host[|a|] == '.';
    assert '.' !in "localhost";
  }

  /** 172.15.x.x and 172.32.x.x lie just outside the refused 172.16-31 block; 172.16 and 172.31 lie inside. */
  lemma Block172Edges(c: string, d: string)
    requires DigitRun(c) && DigitRun(d)
    ensures !ForbiddenHost("172.15." + c + "." + d)
    ensures !ForbiddenHost("172.32." + c + "." + d)
    ensures ForbiddenHost("172.16." + c + "." + d)
    ensures ForbiddenHost("172.31." + c + "." + d)
  {
    assert "172.15." + c + "." + d == "172" + "." + "15" + "." + c + "." + d;
    assert "172.32." + c + "." + d == "172" + "." + "32" + "." + c + "." + d;
    assert "172.16." + c + "." + d == "172" + "." + "16" + "." + c + "." + d;
    assert "172.31." + c + "." + d == "172" + "." + "31" + "." + c + "." + d;
    AddressRefusedIff("172", "15", c, d);
    AddressRefusedIff("172", "32", c, d);
    AddressRefusedIff("172", "16", c, d);
    AddressRefusedIff("172", "31", c, d);
  }

  /** A parser result with hostname `localhost` is refused whatever else it says. */
  lemma LocalhostRefused(url: string, parse: UrlParser)
    requires parse(Prepared(url)).Some? && parse(Prepared(url)).value.hostname == "localhost"
    ensures Validate(url, parse) == Err(InvalidUrl)
  {
  }
}
