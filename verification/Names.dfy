/** The views and selectors that travel between client and daemon (`src/ipc/protocol.rs`). */
module Protocol {
  import opened Text

  const LOOPBACK_HOST := "127.0.0.1"

  type u16 = n: nat | n < 0x1_0000

  datatype StopSelector = Slug(slug: string) | Port(port: u16)

  datatype RouteView = RouteView(slug: string, port: u16, localUrl: string, publicUrl: string)

  /** The host name under which a slug is reachable. */
  function HostName(slug: string, baseDomain: string): string {
    slug + "." + baseDomain
  }

  function LoopbackUrl(port: u16): string {
    "http://" + LOOPBACK_HOST + ":" + Decimal(port)
  }

  /** The local URL of a port: the loopback address and digits that denote the port. */
  predicate IsLocalUrl(url: string, port: nat) {
    var prefix := "http://127.0.0.1:";
    && prefix < url
    && (forall c :: c in url[|prefix|..] ==> IsDigit(c))
    && DigitsValue(url[|prefix|..]) == port
  }

  /** So a local URL tells its port. */
  lemma LoopbackUrlMeaning(port: u16, other: u16)
    ensures IsLocalUrl(LoopbackUrl(port), other) <==> port == other
    ensures LoopbackUrl(port) == LoopbackUrl(other) ==> port == other
  {
    LoopbackUrlDigits(port);
    LoopbackUrlDigits(other);
  }

  lemma LoopbackUrlDigits(port: u16)
    ensures LoopbackUrl(port) == "http://127.0.0.1:" + Decimal(port)
    ensures LoopbackUrl(port)[|"http://127.0.0.1:"|..] == Decimal(port)
    ensures DigitsValue(Decimal(port)) == port
  {
    DecimalRoundTrip(port);
    assert "http://" + "127.0.0.1" + ":" == "http://127.0.0.1:";
  }

  function NewRouteView(slug: string, port: u16, baseDomain: string): RouteView {
    RouteView(slug, port, LoopbackUrl(port), "https://" + HostName(slug, baseDomain))
  }
}

/** Command-line operands (`src/cli.rs`). */
module Cli {
  import opened Wrappers
  import opened Text
  import opened Protocol
  import Slug

  datatype ValidationError =
    | InvalidPort(value: string)
    | InvalidSlug(value: string, reason: Slug.Reason)

  predicate AllDigits(s: string) { forall c :: c in s ==> IsDigit(c) }

  /** `str::parse::<u16>`: an optional plus sign, then digits, without overflow. */
  function ParseU16(s: string): Option<u16> {
    var digits := if |s| > 1 && s[0] == '+' then s[1..] else s;
    if digits == "" || !AllDigits(digits) || DigitsValue(digits) > 0xFFFF then None
    else Some(DigitsValue(digits))
  }

  function ParsePort(value: string): Result<u16, ValidationError> {
    match ParseU16(value)
    case Some(port) => if port >= 1 then Ok(port) else Err(InvalidPort(value))
    case None => Err(InvalidPort(value))
  }

  function NormalizeSlug(value: string): Result<string, ValidationError> {
    var normalized := Lower(value);
    if normalized == "" then Err(InvalidSlug(value, Slug.BadLength))
    else if |normalized| > 63 then Err(InvalidSlug(value, Slug.BadLength))
    else if !(forall c :: c in normalized ==> IsAscii(c)) then Err(InvalidSlug(value, Slug.BadCharacters))
    else if normalized[0] == '-' || normalized[|normalized| - 1] == '-' then
      Err(InvalidSlug(value, Slug.EdgeHyphen))
    else if !(forall c :: c in normalized ==> IsLower(c) || IsDigit(c) || c == '-') then
      Err(InvalidSlug(value, Slug.BadCharacters))
    else if AllDigits(normalized) then Err(InvalidSlug(value, Slug.AllNumeric))
    else Ok(normalized)
  }

  function ParseStopSelector(value: string): Result<StopSelector, ValidationError> {
    if value != "" && AllDigits(value) then
      match ParsePort(value)
      case Ok(port) => Ok(Port(port))
      case Err(_) => Err(InvalidPort(value))
    else
      match NormalizeSlug(value)
      case Ok(slug) => Ok(StopSelector.Slug(slug))
      case Err(error) => Err(error)
  }

  /** The command line and the daemon normalise alike, down to the reason for a refusal. */
  lemma NormalizersAgree(s: string)
    ensures match NormalizeSlug(s)
            case Ok(slug) => Slug.NormalizeSlug(s) == Ok(slug) && Slug.IsSlug(slug)
            case Err(error) =>
              error.InvalidSlug? && Slug.NormalizeSlug(s) == Err(Slug.InvalidSlug(s, error.reason))
  {
    Slug.NormalizeSlugMeaning(s);
  }

  /** `parse_port` accepts exactly the decimal forms of 1 to 65535, with leading zeros and one plus
      sign allowed. */
  lemma ParsePortMeaning(value: string, port: u16)
    ensures ParsePort(value) == Ok(port) <==>
            port >= 1 && exists digits: string ::
              digits != "" && AllDigits(digits) && DigitsValue(digits) == port && (value == digits || value == "+" + digits)
  {
    if ParsePort(value) == Ok(port) {
      var digits := if |value| > 1 && value[0] == '+' then value[1..] else value;
      assert value == digits || value == "+" + digits;
    }
    forall digits: string | digits != "" && AllDigits(digits) && DigitsValue(digits) == port && port >= 1
      ensures value == digits || value == "+" + digits ==> ParsePort(value) == Ok(port)
    {
      assert IsDigit(digits[0]);
      assert ("+" + digits)[1..] == digits;
    }
  }

  /** Selectors round trip: every slug is read as itself, and the decimal form of every port as
      that port. */
  lemma SelectorRoundTrip(slug: string, port: u16)
    ensures Slug.IsSlug(slug) ==> ParseStopSelector(slug) == Ok(StopSelector.Slug(slug))
    ensures port >= 1 ==> ParseStopSelector(Decimal(port)) == Ok(Port(port))
  {
    if Slug.IsSlug(slug) {
      var i :| 0 <= i < |slug| && !IsDigit(slug[i]);
      assert slug[i] in slug;
      NormalizersAgree(slug);
      Slug.NormalizeSlugMeaning(slug);
    }
    DecimalRoundTrip(port);
    assert IsDigit(Decimal(port)[0]);
  }

  /** What a selector says about the text it was read from; in particular no slug, in any case, is
      ever read as a port. */
  lemma SelectorMeaning(value: string)
    ensures match ParseStopSelector(value)
            case Ok(Slug(slug)) => slug == Lower(value) && Slug.IsSlug(slug)
            case Ok(Port(port)) =>
              value != "" && AllDigits(value) && DigitsValue(value) == port >= 1 && !Slug.IsSlug(Lower(value))
            case Err(InvalidPort(v)) =>
              v == value && AllDigits(value) && (DigitsValue(value) == 0 || DigitsValue(value) > 0xFFFF)
            case Err(InvalidSlug(v, _)) => v == value && !Slug.IsSlug(Lower(value))
  {
    NormalizersAgree(value);
    Slug.NormalizeSlugMeaning(value);
    if value != "" && AllDigits(value) {
      assert forall i :: 0 <= i < |value| ==> value[i] in value;
      assert Lower(value) == value;
    }
  }
}

/** Public host names (`src/proxy/headers.rs`). */
module Headers {
  import opened Wrappers
  import opened Text
  import opened Protocol
  import Slug

  datatype PublicHost = PublicHost(slug: string, hostname: string)

  function StripSuffix(s: string, suffix: string): Option<string> {
    if |suffix| <= |s| && s[|s| - |suffix|..] == suffix then Some(s[..|s| - |suffix|]) else None
  }

  predicate ValidSlug(slug: string) {
    && 1 <= |slug| <= 63
    && !(slug[0] == '-')
    && !(slug[|slug| - 1] == '-')
    && !(forall c :: c in slug ==> IsDigit(c))
    && (forall c :: c in slug ==> IsLower(c) || IsDigit(c) || c == '-')
  }

  function ParsePublicHost(host: string, baseDomain: string): Option<PublicHost> {
    var hostname := Lower(host);
    match StripSuffix(hostname, "." + baseDomain)
    case None => None
    case Some(slug) => if ValidSlug(slug) then Some(PublicHost(slug, hostname)) else None
  }

  /** The proxy's validator accepts exactly the slugs, hence what the other two accept. */
  lemma ValidSlugAcceptsSlugs(s: string)
    ensures ValidSlug(s) <==> Slug.IsSlug(s)
    ensures ValidSlug(s) <==> Slug.ValidateNormalizedSlug(s).Ok?
  {
    Slug.ValidateAcceptsSlugs(s);
    if ValidSlug(s) {
      var c :| c in s && !IsDigit(c);
    }
    if Slug.IsSlug(s) {
      var i :| 0 <= i < |s| && !IsDigit(s[i]);
      assert s[i] in s;
      assert forall c :: c in s ==> Slug.IsLabelByte(c);
    }
  }

  lemma HostNameSplit(slug: string, baseDomain: string)
    ensures StripSuffix(HostName(slug, baseDomain), "." + baseDomain) == Some(slug)
  {
    var host := HostName(slug, baseDomain);
    assert host == slug + ("." + baseDomain);
  }

  lemma LowerHostName(slug: string, baseDomain: string)
    ensures Lower(HostName(slug, baseDomain)) == HostName(Lower(slug), Lower(baseDomain))
  {
    LowerFacts(slug + ".", baseDomain);
    LowerFacts(slug, ".");
    assert Lower(".") == ".";
  }

  /** A host parses exactly when its lower-case form is a slug, a dot and the base domain, and then
      it parses to that slug. */
  lemma ParsePublicHostMeaning(host: string, baseDomain: string, slug: string)
    ensures ParsePublicHost(host, baseDomain) == Some(PublicHost(slug, Lower(host))) <==>
            Slug.IsSlug(slug) && Lower(host) == HostName(slug, baseDomain)
    ensures ParsePublicHost(host, baseDomain).Some? ==>
              ParsePublicHost(host, baseDomain).value.hostname == Lower(host)
  {
    ValidSlugAcceptsSlugs(slug);
    HostNameSplit(slug, baseDomain);
    match StripSuffix(Lower(host), "." + baseDomain)
    case None =>
    case Some(found) => assert Lower(host) == HostName(found, baseDomain);
  }

  /** Any spelling of a public host name, in upper or lower case, parses back to its slug - if and
      only if the base domain is in lower case. */
  lemma PublicNameRoundTrip(slug: string, baseDomain: string, host: string)
    requires Slug.IsSlug(slug)
    requires Lower(host) == Lower(HostName(slug, baseDomain))
    ensures ParsePublicHost(host, baseDomain) == Some(PublicHost(slug, Lower(host))) <==> Lower(baseDomain) == baseDomain
    ensures Lower(baseDomain) != baseDomain ==> ParsePublicHost(host, baseDomain).None?
  {
    LowerHostName(slug, baseDomain);
    Slug.SlugIsLower(slug);
    ParsePublicHostMeaning(host, baseDomain, slug);
    var lowered := HostName(slug, Lower(baseDomain));
    assert Lower(host) == lowered;
    var suffix := "." + baseDomain;
    if ParsePublicHost(host, baseDomain).Some? {
      assert lowered[|lowered| - |suffix|..] == "." + Lower(baseDomain);
      assert Lower(baseDomain) == ("." + Lower(baseDomain))[1..] == suffix[1..] == baseDomain;
    }
  }
}
