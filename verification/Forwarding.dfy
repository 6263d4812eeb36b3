/** From the tunnel's configuration to a route: the names the pieces agree on. */
module Forwarding {
  import opened Wrappers
  import opened Text
  import opened Protocol
  import opened Registry
  import opened Ingress
  import IngressMeaning
  import Headers
  import Lookup

  /** The wildcard of the managed rule is the base domain under `*.`, but for upper and lower case. */
  lemma WildcardIsBaseDomain(document: Value, port: u16)
    requires Accepted(document)
    ensures var rules := RulesOf(document).value;
            var managed := rules[ManagedIndex(rules).value];
            var domain := Normalized(document, port).value.1;
            && RoleOf(managed).Managed?
            && Lower(RoleOf(managed).hostname) == "*." + domain
            && RoleOf(managed).hostname == AsStr(Get(managed.entries, "hostname")).value
  {
    var rules := RulesOf(document).value;
    var hostname := AsStr(Get(rules[ManagedIndex(rules).value].entries, "hostname")).value;
    assert hostname == hostname[..2] + hostname[2..] && hostname[..2] == "*.";
    LowerFacts("*.", hostname[2..]);
    assert Lower("*.") == "*.";
  }

  /** Under any accepted configuration, every registered route is reached under its public name, in
      any spelling; and whatever host parses names a slug under the wildcard. */
  lemma ConfiguredNamesReachRoutes(document: Value, port: u16, m: Routes, k: string, host: string)
    requires Accepted(document) && WellFormed(m) && k in m
    ensures var domain := Normalized(document, port).value.1;
            Lower(host) == Lower(HostName(k, domain)) ==>
              && Headers.ParsePublicHost(host, domain) == Some(Headers.PublicHost(k, Lower(host)))
              && Lookup.LookupPort(m, k) == Some(m[k].port)
    ensures var domain := Normalized(document, port).value.1;
            var parsed := Headers.ParsePublicHost(host, domain);
            parsed.Some? ==> Lower(host) == HostName(parsed.value.slug, domain)
  {
    var domain := Normalized(document, port).value.1;
    IngressMeaning.BaseDomainIsLower(document, port);
    if Lower(host) == Lower(HostName(k, domain)) {
      Lookup.PublicNameReachesRoute(m, k, domain, host);
    }
    var parsed := Headers.ParsePublicHost(host, domain);
    if parsed.Some? {
      Headers.ParsePublicHostMeaning(host, domain, parsed.value.slug);
    }
  }
}
