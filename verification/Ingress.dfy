/** The ingress normaliser (`src/cloudflare_config.rs`), from parsed values. */
module Ingress {
  import opened Wrappers
  import opened Text
  import opened Protocol

  // ---------------------------------------------------------------------------------------------
  // YAML values; mappings keep their order
  // ---------------------------------------------------------------------------------------------

  datatype Value =
    | Null
    | Bool(flag: bool)
    | Number(number: real)
    | Str(text: string)
    | Sequence(items: seq<Value>)
    | Mapping(entries: seq<Entry>)

  datatype Entry = Entry(key: Value, value: Value)

  function Get(m: seq<Entry>, key: string): Option<Value> {
    if m == [] then None
    else if m[0].key == Str(key) then Some(m[0].value)
    else Get(m[1..], key)
  }

  /** Update in place, or append. */
  function Insert(m: seq<Entry>, key: string, value: Value): seq<Entry> {
    if m == [] then [Entry(Str(key), value)]
    else if m[0].key == Str(key) then [Entry(m[0].key, value)] + m[1..]
    else [m[0]] + Insert(m[1..], key, value)
  }

  /** Inserting changes one key, and a second insertion under it replaces the first, in place. */
  lemma {:induction false} InsertMeaning(m: seq<Entry>, key: string, v: Value, w: Value, other: string)
    ensures Get(Insert(m, key, v), key) == Some(v)
    ensures other != key ==> Get(Insert(m, key, v), other) == Get(m, other)
    ensures Insert(Insert(m, key, v), key, w) == Insert(m, key, w)
    ensures Get(m, key).Some? ==> |Insert(m, key, v)| == |m|
  {
    if m != [] && m[0].key != Str(key) {
      InsertMeaning(m[1..], key, v, w, other);
      var inner := Insert(m[1..], key, v);
      assert Insert(m, key, v) == [m[0]] + inner;
      assert ([m[0]] + inner)[1..] == inner;
    } else if m != [] {
      assert Insert(m, key, v)[1..] == m[1..];
    }
  }

  function AsStr(v: Option<Value>): Option<string> {
    if v.Some? && v.value.Str? then Some(v.value.text) else None
  }

  // ---------------------------------------------------------------------------------------------
  // Wildcard host names
  // ---------------------------------------------------------------------------------------------

  /** `split('.')`. */
  function Labels(s: string): (r: seq<string>)
    ensures r != []
  {
    if s == "" then [""]
    else
      var rest := Labels(s[1..]);
      if s[0] == '.' then [""] + rest else [[s[0]] + rest[0]] + rest[1..]
  }

  function Joined(labels: seq<string>): string
    requires labels != []
  {
    if |labels| == 1 then labels[0] else labels[0] + "." + Joined(labels[1..])
  }

  lemma JoinedNext(rest: seq<string>, first: string)
    requires rest != []
    ensures Joined([first] + rest) == first + "." + Joined(rest)
  {
    assert ([first] + rest)[1..] == rest;
  }

  lemma JoinedLonger(rest: seq<string>, c: char)
    requires rest != []
    ensures Joined([[c] + rest[0]] + rest[1..]) == [c] + Joined(rest)
  {
    var labels := [[c] + rest[0]] + rest[1..];
    assert labels[1..] == rest[1..];
    if |rest| > 1 {
      assert [c] + rest[0] + "." + Joined(rest[1..]) == [c] + (rest[0] + "." + Joined(rest[1..]));
    }
  }

  /** The labels are the dotless pieces of the text between its dots. */
  lemma {:induction false} LabelsMeaning(s: string)
    ensures Joined(Labels(s)) == s
    ensures forall l :: l in Labels(s) ==> '.' !in l
  {
    if s != "" {
      LabelsMeaning(s[1..]);
      var rest := Labels(s[1..]);
      assert s == [s[0]] + s[1..];
      if s[0] == '.' {
        JoinedNext(rest, "");
      } else {
        JoinedLonger(rest, s[0]);
        assert forall l :: l in rest[1..] ==> l in rest;
      }
    }
  }

  predicate IsAlphanumeric(c: char) { IsLower(c) || IsUpper(c) || IsDigit(c) }

  predicate IsDomainLabel(part: string) {
    && 1 <= |part| <= 63
    && part[0] != '-' && part[|part| - 1] != '-'
    && forall c :: c in part ==> IsAlphanumeric(c) || c == '-'
  }

  /** A domain name of labels as in section 2.3.1 of RFC 1035, relaxed by section 2.1 of RFC 1123. */
  predicate IsDomain(domain: string) {
    && domain != "" && |domain| <= 253
    && forall l :: l in Labels(domain) ==> IsDomainLabel(l)
  }

  datatype Wildcard = NotWildcard | InvalidWildcard | BaseDomain(domain: string)

  predicate IsStarred(hostname: string) { "*." <= hostname }

  function WildcardBaseDomain(hostname: string): Wildcard {
    if !IsStarred(hostname) then NotWildcard
    else
      var domain := Lower(hostname[2..]);
      if IsDomain(domain) then BaseDomain(domain) else InvalidWildcard
  }

  // ---------------------------------------------------------------------------------------------
  // Rules
  // ---------------------------------------------------------------------------------------------

  const FALLBACK_SERVICE := "http_status:404"

  const DEFAULT_FALLBACK := Mapping([Entry(Str("service"), Str(FALLBACK_SERVICE))])

  /** What a rule is on its own. */
  datatype Role =
    | NotMapping
    | BadCatchAll
    | Fallback
    | Specific
    | Managed(hostname: string, domain: string)
    | BadWildcard(hostname: string)

  function RoleOf(rule: Value): Role {
    if !rule.Mapping? then NotMapping
    else if Get(rule.entries, "hostname").None? then
      if AsStr(Get(rule.entries, "service")) == Some(FALLBACK_SERVICE) then Fallback else BadCatchAll
    else
      var hostname := AsStr(Get(rule.entries, "hostname"));
      if Get(rule.entries, "path").Some? || hostname.None? then Specific
      else
        match WildcardBaseDomain(hostname.value)
        case NotWildcard => Specific
        case InvalidWildcard => BadWildcard(hostname.value)
        case BaseDomain(domain) => Managed(hostname.value, domain)
  }

  datatype IngressError =
    | NoMappingAtRoot
    | IngressNotSequence
    | RuleNotMapping(index: nat)
    | HostlessRule(index: nat)
    | BadHostname(index: nat, hostname: string)
    | Ambiguous(first: nat, firstHostname: string, index: nat, hostname: string)
    | NoWildcard

  /** `error` is what rule `i` is refused for, given the rules before it. */
  ghost predicate ProblemAt(rules: seq<Value>, i: nat, error: IngressError)
    requires i < |rules|
  {
    match RoleOf(rules[i])
    case NotMapping => error == RuleNotMapping(i)
    case BadCatchAll => error == HostlessRule(i)
    case BadWildcard(hostname) => error == BadHostname(i, hostname)
    case Managed(hostname, _) =>
      exists j :: 0 <= j < i && RoleOf(rules[j]).Managed? && error == Ambiguous(j, RoleOf(rules[j]).hostname, i, hostname)
    case _ => false
  }

  ghost predicate Fine(rules: seq<Value>, i: nat)
    requires i < |rules|
  {
    match RoleOf(rules[i])
    case Fallback => true
    case Specific => true
    case Managed(_, _) => forall j :: 0 <= j < i ==> !RoleOf(rules[j]).Managed?
    case _ => false
  }

  /** `error` is what the rules are refused for: the problem of the first rule that is not fine. */
  ghost predicate FirstProblem(rules: seq<Value>, i: nat, error: IngressError) {
    i < |rules| && ProblemAt(rules, i, error) && forall k :: 0 <= k < i ==> Fine(rules, k)
  }

  /** The rules in a document; a missing `ingress` counts as none. */
  function RulesOf(document: Value): Result<seq<Value>, IngressError> {
    if !document.Mapping? then Err(NoMappingAtRoot)
    else
      match Get(document.entries, "ingress")
      case None => Ok([])
      case Some(v) => if v.Sequence? then Ok(v.items) else Err(IngressNotSequence)
  }

  /** The indices of the specific rules, the managed rule, the first fallback. */
  function SpecificIndices(rules: seq<Value>): (r: seq<nat>)
    ensures forall j :: 0 <= j < |r| ==> r[j] < |rules|
  {
    if rules == [] then []
    else
      var n := |rules| - 1;
      var before := SpecificIndices(rules[..n]);
      if RoleOf(rules[n]).Specific? then before + [n] else before
  }

  function ManagedIndex(rules: seq<Value>): (r: Option<nat>)
    ensures r.Some? ==> r.value < |rules| && RoleOf(rules[r.value]).Managed?
  {
    if rules == [] then None
    else
      var n := |rules| - 1;
      var before := ManagedIndex(rules[..n]);
      if before.Some? then before else if RoleOf(rules[n]).Managed? then Some(n) else None
  }

  function FallbackIndex(rules: seq<Value>): (r: Option<nat>)
    ensures r.Some? ==> r.value < |rules| && RoleOf(rules[r.value]).Fallback?
  {
    if rules == [] then None
    else
      var n := |rules| - 1;
      var before := FallbackIndex(rules[..n]);
      if before.Some? then before else if RoleOf(rules[n]).Fallback? then Some(n) else None
  }

  function SpecificRules(rules: seq<Value>): seq<Value> {
    var indices := SpecificIndices(rules);
    seq(|indices|, j requires 0 <= j < |indices| => rules[indices[j]])
  }

  function Patched(rule: Value, port: u16): Value
    requires rule.Mapping?
  {
    Mapping(Insert(rule.entries, "service", Str(LoopbackUrl(port))))
  }

  /** The rules a document is given: the specific ones in order, the managed one with its service
      set, the first fallback or a default. */
  function Rewritten(rules: seq<Value>, port: u16): seq<Value>
    requires ManagedIndex(rules).Some?
  {
    var fallback := FallbackIndex(rules);
    SpecificRules(rules)
    + [Patched(rules[ManagedIndex(rules).value], port)]
    + [if fallback.Some? then rules[fallback.value] else DEFAULT_FALLBACK]
  }

  ghost predicate AllFine(rules: seq<Value>) {
    forall i :: 0 <= i < |rules| ==> Fine(rules, i)
  }

  ghost predicate Accepted(document: Value) {
    RulesOf(document).Ok? && AllFine(RulesOf(document).value) && ManagedIndex(RulesOf(document).value).Some?
  }

  /** The normalised document and its base domain; nothing depends on the port but one service. */
  ghost function Normalized(document: Value, port: u16): Option<(Value, string)> {
    if !Accepted(document) then None
    else
      var rules := RulesOf(document).value;
      Some((
        Mapping(Insert(document.entries, "ingress", Sequence(Rewritten(rules, port)))),
        RoleOf(rules[ManagedIndex(rules).value]).domain))
  }

  /** Why a document is refused. */
  ghost predicate RefusedFor(document: Value, error: IngressError) {
    match RulesOf(document)
    case Err(e) => error == e
    case Ok(rules) =>
      if AllFine(rules) then ManagedIndex(rules).None? && error == NoWildcard
      else exists i: nat :: FirstProblem(rules, i, error)
  }

  lemma FirstsAreKept(rules: seq<Value>, n: nat)
    requires n < |rules|
    ensures rules[..n + 1][..n] == rules[..n]
    ensures SpecificIndices(rules[..n + 1]) ==
            if RoleOf(rules[n]).Specific? then SpecificIndices(rules[..n]) + [n] else SpecificIndices(rules[..n])
    ensures ManagedIndex(rules[..n + 1]) ==
            if ManagedIndex(rules[..n]).None? && RoleOf(rules[n]).Managed? then Some(n) else ManagedIndex(rules[..n])
    ensures FallbackIndex(rules[..n + 1]) ==
            if FallbackIndex(rules[..n]).None? && RoleOf(rules[n]).Fallback? then Some(n) else FallbackIndex(rules[..n])
  {
    assert rules[..n + 1][..n] == rules[..n];
  }

  lemma {:induction false} ManagedIndexMeaning(rules: seq<Value>)
    ensures match ManagedIndex(rules)
            case None => forall i :: 0 <= i < |rules| ==> !RoleOf(rules[i]).Managed?
            case Some(j) => RoleOf(rules[j]).Managed? && forall i :: 0 <= i < j ==> !RoleOf(rules[i]).Managed?
    decreases |rules|
  {
    if rules != [] {
      ManagedIndexMeaning(rules[..|rules| - 1]);
    }
  }

  lemma RefusedAt(document: Value, rules: seq<Value>, i: nat, error: IngressError)
    requires RulesOf(document) == Ok(rules) && FirstProblem(rules, i, error)
    ensures !Accepted(document) && RefusedFor(document, error)
  {
    assert !Fine(rules, i);
  }

  /** The wildcard of a rule with a host name, and that name. */
  method ReadWildcard(rule: seq<Entry>) returns (wildcard: Wildcard, hostname: string)
    requires Get(rule, "hostname").Some?
    ensures RoleOf(Mapping(rule)) ==
            match wildcard
            case NotWildcard => Specific
            case InvalidWildcard => BadWildcard(hostname)
            case BaseDomain(domain) => Managed(hostname, domain)
  {
    wildcard, hostname := NotWildcard, "";
    var name := AsStr(Get(rule, "hostname"));
    if Get(rule, "path").None? {
      if name.Some? {
        wildcard, hostname := WildcardBaseDomain(name.value), name.value;
      }
    }
  }

  /** What the loop of `normalize_value` has found so far. */
  datatype Found = Found(
    specific: seq<Value>,
    managed: Option<(nat, string, seq<Entry>, string)>, // index, host name, patched rule, base domain
    fallback: Option<seq<Entry>>)

  ghost predicate Finds(found: Found, rules: seq<Value>, port: u16) {
    && found.specific == SpecificRules(rules)
    && (match ManagedIndex(rules)
        case None => found.managed.None?
        case Some(j) =>
          && found.managed.Some? && found.managed.value.0 == j
          && RoleOf(rules[j]) == Managed(found.managed.value.1, found.managed.value.3)
          && Mapping(found.managed.value.2) == Patched(rules[j], port))
    && (match FallbackIndex(rules)
        case None => found.fallback.None?
        case Some(j) => found.fallback.Some? && Mapping(found.fallback.value) == rules[j])
  }

  /** One more rule. */
  lemma FindsNext(found: Found, found': Found, rules: seq<Value>, n: nat, port: u16)
    requires n < |rules| && rules[n].Mapping? && Finds(found, rules[..n], port)
    requires match RoleOf(rules[n])
             case Specific => found' == found.(specific := found.specific + [rules[n]])
             case Fallback =>
               found' == if found.fallback.None? then found.(fallback := Some(rules[n].entries)) else found
             case Managed(hostname, domain) =>
               && found.managed.None?
               && found' == found.(
                 managed := Some((n, hostname, Insert(rules[n].entries, "service", Str(LoopbackUrl(port))), domain)))
             case _ => false
    ensures Finds(found', rules[..n + 1], port)
  {
    FirstsAreKept(rules, n);
  }

  /** A rule that is no second wildcard passes; a second one is refused. */
  lemma FineNext(found: Found, rules: seq<Value>, n: nat, port: u16)
    requires n < |rules| && Finds(found, rules[..n], port)
    ensures RoleOf(rules[n]).Specific? || RoleOf(rules[n]).Fallback? ==> Fine(rules, n)
    ensures RoleOf(rules[n]).Managed? ==>
              if found.managed.None? then Fine(rules, n)
              else ProblemAt(rules, n, Ambiguous(found.managed.value.0, found.managed.value.1, n, RoleOf(rules[n]).hostname))
  {
    ManagedIndexMeaning(rules[..n]);
    if found.managed.None? {
      forall j | 0 <= j < n ensures !RoleOf(rules[j]).Managed? {
        assert rules[..n][j] == rules[j];
      }
    } else {
      var j := found.managed.value.0;
      assert rules[..n][j] == rules[j];
    }
  }

  /** The loop of `normalize_value`. */
  method SortRules(rules: seq<Value>, port: u16) returns (r: Result<Found, IngressError>)
    ensures match r
            case Ok(found) => AllFine(rules) && Finds(found, rules, port)
            case Err(error) => exists i: nat :: FirstProblem(rules, i, error)
  {
    var canonical := Str(LoopbackUrl(port));
    var found := Found([], None, None);
    var index := 0;
    while index < |rules|
      invariant 0 <= index <= |rules|
      invariant forall i :: 0 <= i < index ==> Fine(rules, i)
      invariant Finds(found, rules[..index], port)
    {
      FineNext(found, rules, index, port);
      ghost var before := found;
      if !rules[index].Mapping? {
        assert FirstProblem(rules, index, RuleNotMapping(index));
        return Err(RuleNotMapping(index));
      }
      var rule := rules[index].entries;
      if Get(rule, "hostname").None? {
        if AsStr(Get(rule, "service")) != Some(FALLBACK_SERVICE) {
          assert FirstProblem(rules, index, HostlessRule(index));
          return Err(HostlessRule(index));
        }
        if found.fallback.None? {
          found := found.(fallback := Some(rule));
        }
      } else {
        var wildcard, hostname := ReadWildcard(rule);
        match wildcard {
          case InvalidWildcard =>
            assert FirstProblem(rules, index, BadHostname(index, hostname));
            return Err(BadHostname(index, hostname));
          case BaseDomain(domain) =>
            if found.managed.Some? {
              var (first, firstHostname, _, _) := found.managed.value;
              assert FirstProblem(rules, index, Ambiguous(first, firstHostname, index, hostname));
              return Err(Ambiguous(first, firstHostname, index, hostname));
            }
            found := found.(managed := Some((index, hostname, Insert(rule, "service", canonical), domain)));
          case NotWildcard =>
            found := found.(specific := found.specific + [rules[index]]);
        }
      }
      FindsNext(before, found, rules, index, port);
      index := index + 1;
    }
    assert rules[..index] == rules;
    r := Ok(found);
  }

  /** `normalize_value`. */
  method NormalizeValue(document: Value, port: u16) returns (r: Result<(Value, string), IngressError>)
    ensures match r
            case Ok(normalized) => Normalized(document, port) == Some(normalized)
            case Err(error) => Normalized(document, port) == None && RefusedFor(document, error)
  {
    if !document.Mapping? {
      return Err(NoMappingAtRoot);
    }
    var root := document.entries;
    var rules: seq<Value> := [];
    var ingress := Get(root, "ingress");
    if ingress.Some? {
      if !ingress.value.Sequence? {
        return Err(IngressNotSequence);
      }
      rules := ingress.value.items;
    }
    var sorted := SortRules(rules, port);
    match sorted {
      case Err(error) =>
        ghost var i: nat :| FirstProblem(rules, i, error);
        RefusedAt(document, rules, i, error);
        return Err(error);
      case Ok(found) =>
        if found.managed.None? {
          return Err(NoWildcard);
        }
        var (_, _, managed, domain) := found.managed.value;
        var last := if found.fallback.Some? then Mapping(found.fallback.value) else DEFAULT_FALLBACK;
        root := Insert(root, "ingress", Sequence(found.specific + [Mapping(managed)] + [last]));
        r := Ok((Mapping(root), domain));
    }
  }
}
