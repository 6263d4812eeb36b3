/** First-match meaning: what normalising does to the rule a request is served by. */
module IngressMatching {
  import opened Wrappers
  import opened Protocol
  import opened Ingress
  import opened IngressMeaning

  /** Rules are matched in order, by host name and path. */
  type Key = (Option<Value>, Option<Value>)

  type Request = Key -> bool

  function KeyOf(rule: Value): Key
    requires rule.Mapping?
  {
    (Get(rule.entries, "hostname"), Get(rule.entries, "path"))
  }

  predicate Matches(request: Request, rule: Value) {
    rule.Mapping? && request(KeyOf(rule))
  }

  function FirstMatch(rules: seq<Value>, request: Request): (r: Option<nat>)
    ensures match r
            case None => forall i :: 0 <= i < |rules| ==> !Matches(request, rules[i])
            case Some(i) =>
              && i < |rules| && Matches(request, rules[i])
              && forall k :: 0 <= k < i ==> !Matches(request, rules[k])
    decreases |rules|
  {
    if rules == [] then None
    else
      var n := |rules| - 1;
      var before := FirstMatch(rules[..n], request);
      assert forall k :: 0 <= k < n ==> rules[..n][k] == rules[k];
      if before.Some? then before else if Matches(request, rules[n]) then Some(n) else None
  }

  /** The first match is whatever matches with nothing matching before it. */
  lemma FirstMatchIs(rules: seq<Value>, request: Request, i: nat)
    requires i < |rules| && Matches(request, rules[i])
    requires forall k :: 0 <= k < i ==> !Matches(request, rules[k])
    ensures FirstMatch(rules, request) == Some(i)
  {}

  ghost predicate SpecificMatches(rules: seq<Value>, request: Request) {
    exists i :: 0 <= i < |rules| && RoleOf(rules[i]).Specific? && Matches(request, rules[i])
  }

  ghost predicate ManagedMatches(rules: seq<Value>, request: Request) {
    ManagedIndex(rules).Some? && Matches(request, rules[ManagedIndex(rules).value])
  }

  /** The input rule that output rule `j` comes from. */
  function Origin(rules: seq<Value>, j: nat): Option<nat> {
    var indices := SpecificIndices(rules);
    if j < |indices| then Some(indices[j])
    else if j == |indices| then ManagedIndex(rules)
    else FallbackIndex(rules)
  }

  // ---------------------------------------------------------------------------------------------
  // The three kinds of first match in the output
  // ---------------------------------------------------------------------------------------------

  lemma OutputShape(rules: seq<Value>, port: u16)
    requires ManagedIndex(rules).Some?
    ensures var out := Rewritten(rules, port);
            var indices := SpecificIndices(rules);
            && |out| == |indices| + 2
            && (forall k :: 0 <= k < |indices| ==> out[k] == rules[indices[k]])
            && out[|indices|] == Patched(rules[ManagedIndex(rules).value], port)
  {}

  /** A matching specific rule, in the output. */
  lemma SpecificInOutput(rules: seq<Value>, port: u16, request: Request, i: nat) returns (j: nat)
    requires ManagedIndex(rules).Some?
    requires i < |rules| && RoleOf(rules[i]).Specific? && Matches(request, rules[i])
    ensures j < |SpecificIndices(rules)| < |Rewritten(rules, port)| && SpecificIndices(rules)[j] == i
    ensures Rewritten(rules, port)[j] == rules[i]
    ensures FirstMatch(Rewritten(rules, port), request).Some? && FirstMatch(Rewritten(rules, port), request).value <= j
  {
    SpecificIndicesMeaning(rules);
    OutputShape(rules, port);
    var k :| 0 <= k < |SpecificIndices(rules)| && SpecificIndices(rules)[k] == i;
    j := k;
  }

  /** Specific rules come first in the output, in their order. */
  lemma SpecificServes(rules: seq<Value>, port: u16, request: Request)
    requires AllFine(rules) && ManagedIndex(rules).Some? && SpecificMatches(rules, request)
    ensures var out := Rewritten(rules, port);
            var r := FirstMatch(out, request);
            && r.Some? && r.value < |SpecificIndices(rules)|
            && var i := SpecificIndices(rules)[r.value];
               && out[r.value] == rules[i] && RoleOf(rules[i]).Specific? && Matches(request, rules[i])
               && forall k :: 0 <= k < i && RoleOf(rules[k]).Specific? ==> !Matches(request, rules[k])
  {
    var i :| 0 <= i < |rules| && RoleOf(rules[i]).Specific? && Matches(request, rules[i]);
    var _ := SpecificInOutput(rules, port, request, i);
    var indices := SpecificIndices(rules);
    var r := FirstMatch(Rewritten(rules, port), request).value;
    OutputShape(rules, port);
    SpecificIndicesMeaning(rules);
    forall k: nat | k < |rules| && RoleOf(rules[k]).Specific? && Matches(request, rules[k]) ensures indices[r] <= k {
      var l := SpecificInOutput(rules, port, request, k);
      assert r == l || indices[r] < indices[l];
    }
  }

  /** With no specific rule matching, the managed rule serves what it matches, by the forwarder. */
  lemma ManagedServes(rules: seq<Value>, port: u16, request: Request)
    requires AllFine(rules) && ManagedMatches(rules, request) && !SpecificMatches(rules, request)
    ensures var out := Rewritten(rules, port);
            var managed := rules[ManagedIndex(rules).value];
            var j := |SpecificIndices(rules)|;
            && FirstMatch(out, request) == Some(j)
            && out[j] == Patched(managed, port) && KeyOf(out[j]) == KeyOf(managed)
            && AsStr(Get(out[j].entries, "service")).Some?
            && IsLocalUrl(AsStr(Get(out[j].entries, "service")).value, port)
  {
    LoopbackUrlMeaning(port, port);
    var out := Rewritten(rules, port);
    var j := |SpecificIndices(rules)|;
    NoSpecificBefore(rules, port, request);
    PatchedKeepsRole(rules[ManagedIndex(rules).value], port, port);
    FirstMatchIs(out, request, j);
  }

  lemma NoSpecificBefore(rules: seq<Value>, port: u16, request: Request)
    requires ManagedIndex(rules).Some? && !SpecificMatches(rules, request)
    ensures var out := Rewritten(rules, port);
            |out| == |SpecificIndices(rules)| + 2 &&
            forall k :: 0 <= k < |SpecificIndices(rules)| ==> !Matches(request, out[k])
  {
    SpecificIndicesMeaning(rules);
    OutputShape(rules, port);
  }

  /** Otherwise the first fallback, or the default one, serves what it matches. */
  lemma FallbackServes(rules: seq<Value>, port: u16, request: Request)
    requires AllFine(rules) && ManagedIndex(rules).Some?
    requires !SpecificMatches(rules, request) && !ManagedMatches(rules, request)
    ensures var out := Rewritten(rules, port);
            var last := if FallbackIndex(rules).Some? then rules[FallbackIndex(rules).value] else DEFAULT_FALLBACK;
            var j := |SpecificIndices(rules)| + 1;
            && out[j] == last
            && FirstMatch(out, request) == if Matches(request, last) then Some(j) else None
  {
    var out := Rewritten(rules, port);
    var j := |SpecificIndices(rules)| + 1;
    NoSpecificBefore(rules, port, request);
    PatchedKeepsRole(rules[ManagedIndex(rules).value], port, port);
    assert forall k :: 0 <= k < j ==> !Matches(request, out[k]);
    if Matches(request, out[j]) {
      FirstMatchIs(out, request, j);
    }
  }

  /** A request first matched by a specific rule is served by that same rule, unchanged. */
  lemma SpecificMatchIsKept(rules: seq<Value>, port: u16, request: Request, i: nat)
    requires AllFine(rules) && ManagedIndex(rules).Some?
    requires FirstMatch(rules, request) == Some(i) && RoleOf(rules[i]).Specific?
    ensures var out := Rewritten(rules, port);
            var r := FirstMatch(out, request);
            r.Some? && out[r.value] == rules[i] && Origin(rules, r.value) == Some(i)
  {
    SpecificServes(rules, port, request);
  }

  // ---------------------------------------------------------------------------------------------
  // Exactly when the serving rule is kept
  // ---------------------------------------------------------------------------------------------

  /** The request is served after normalising by the rule that served it before, or by none if
      none did. */
  ghost predicate Kept(rules: seq<Value>, port: u16, request: Request)
    requires ManagedIndex(rules).Some?
  {
    var after := FirstMatch(Rewritten(rules, port), request);
    match FirstMatch(rules, request)
    case None => after.None?
    case Some(i) => after.Some? && Origin(rules, after.value) == Some(i)
  }

  /** What has to hold of the input for the serving rule to be kept. */
  ghost predicate KeepsOrder(rules: seq<Value>, request: Request)
    requires ManagedIndex(rules).Some?
  {
    match FirstMatch(rules, request)
    case None => FallbackIndex(rules).Some? || !request((None, None))
    case Some(i) =>
      match RoleOf(rules[i])
      case Specific => true
      case Managed(_, _) => !SpecificMatches(rules, request)
      case _ => FallbackIndex(rules) == Some(i) && !SpecificMatches(rules, request) && !ManagedMatches(rules, request)
  }

  /** The serving rule can change: moving specific rules ahead of the wildcard, and the fallback
      behind both, is harmless exactly when nothing it moves past the serving rule matches. */
  lemma KeptExactly(rules: seq<Value>, port: u16, request: Request)
    requires AllFine(rules) && ManagedIndex(rules).Some?
    ensures Kept(rules, port, request) <==> KeepsOrder(rules, request)
  {
    if SpecificMatches(rules, request) {
      KeptWithSpecific(rules, port, request);
    } else if ManagedMatches(rules, request) {
      ManagedServes(rules, port, request);
      KeptWithManaged(rules, port, request);
    } else {
      KeptWithFallback(rules, port, request);
    }
  }

  lemma KeptWithSpecific(rules: seq<Value>, port: u16, request: Request)
    requires AllFine(rules) && ManagedIndex(rules).Some? && SpecificMatches(rules, request)
    ensures Kept(rules, port, request) <==> KeepsOrder(rules, request)
  {
    SpecificServes(rules, port, request);
    var i := FirstMatch(rules, request).value;
    assert Fine(rules, i);
    if RoleOf(rules[i]).Specific? {
      SpecificMatchIsKept(rules, port, request, i);
    }
  }

  lemma KeptWithManaged(rules: seq<Value>, port: u16, request: Request)
    requires AllFine(rules) && ManagedMatches(rules, request) && !SpecificMatches(rules, request)
    ensures Kept(rules, port, request) <==> KeepsOrder(rules, request)
  {
    ManagedServes(rules, port, request);
    ManagedIndexMeaning(rules);
    var i := FirstMatch(rules, request).value;
    assert Fine(rules, i);
    if RoleOf(rules[i]).Managed? {
      OneManaged(rules, i, ManagedIndex(rules).value);
    }
  }

  lemma KeptWithFallback(rules: seq<Value>, port: u16, request: Request)
    requires AllFine(rules) && ManagedIndex(rules).Some?
    requires !SpecificMatches(rules, request) && !ManagedMatches(rules, request)
    ensures Kept(rules, port, request) <==> KeepsOrder(rules, request)
  {
    FallbackServes(rules, port, request);
    DefaultKey();
    match FirstMatch(rules, request)
    case None =>
    case Some(i) =>
      assert Fine(rules, i);
      if RoleOf(rules[i]).Managed? {
        OneManaged(rules, i, ManagedIndex(rules).value);
      }
  }

  lemma DefaultKey()
    ensures DEFAULT_FALLBACK.Mapping? && KeyOf(DEFAULT_FALLBACK) == (None, None)
  {
    var entries := DEFAULT_FALLBACK.entries;
    assert |"hostname"| != |"service"| && |"path"| != |"service"| && entries[1..] == [];
    assert Get(entries, "hostname").None? && Get(entries, "path").None?;
  }

  // ---------------------------------------------------------------------------------------------
  // Which rule lists keep every serving rule
  // ---------------------------------------------------------------------------------------------

  /** No earlier rule has the key of rule `i`: only such a rule is ever a first match. */
  ghost predicate Leads(rules: seq<Value>, i: nat)
    requires i < |rules|
  {
    rules[i].Mapping? && forall k :: 0 <= k < i && rules[k].Mapping? ==> KeyOf(rules[k]) != KeyOf(rules[i])
  }

  /** Specific rules, the wildcard, one fallback, in that order, leaving out rules that repeat a key. */
  ghost predicate LeadsInOrder(rules: seq<Value>) {
    && FallbackIndex(rules).Some?
    && forall i, j :: 0 <= i < j < |rules| && Leads(rules, i) && Leads(rules, j) ==>
         RoleOf(rules[i]).Specific? || (RoleOf(rules[i]).Managed? && RoleOf(rules[j]).Fallback?)
  }

  lemma {:induction false} FallbackIndexMeaning(rules: seq<Value>)
    ensures match FallbackIndex(rules)
            case None => forall i :: 0 <= i < |rules| ==> !RoleOf(rules[i]).Fallback?
            case Some(j) => forall i :: 0 <= i < j ==> !RoleOf(rules[i]).Fallback?
    decreases |rules|
  {
    if rules != [] {
      FallbackIndexMeaning(rules[..|rules| - 1]);
    }
  }

  lemma FirstMatchLeads(rules: seq<Value>, request: Request)
    requires FirstMatch(rules, request).Some?
    ensures Leads(rules, FirstMatch(rules, request).value)
  {}

  /** Fine rules with the same key are of the same kind, and not both the wildcard. */
  lemma SameKeySameKind(rules: seq<Value>, i: nat, j: nat)
    requires AllFine(rules) && i < j < |rules| && rules[i].Mapping? && rules[j].Mapping?
    requires KeyOf(rules[i]) == KeyOf(rules[j])
    ensures RoleOf(rules[i]).Specific? <==> RoleOf(rules[j]).Specific?
    ensures RoleOf(rules[i]).Fallback? <==> RoleOf(rules[j]).Fallback?
    ensures !RoleOf(rules[j]).Managed?
  {
    assert Fine(rules, i) && Fine(rules, j);
  }

  /** The first rule with the key of rule `i`: it leads, and is of its kind. */
  lemma {:induction false} Leader(rules: seq<Value>, i: nat) returns (l: nat)
    requires AllFine(rules) && i < |rules| && rules[i].Mapping?
    ensures l <= i && Leads(rules, l) && KeyOf(rules[l]) == KeyOf(rules[i])
    ensures RoleOf(rules[l]).Specific? <==> RoleOf(rules[i]).Specific?
    ensures RoleOf(rules[l]).Fallback? <==> RoleOf(rules[i]).Fallback?
    ensures RoleOf(rules[i]).Managed? ==> l == i
  {
    hide RoleOf;
    if Leads(rules, i) {
      l := i;
    } else {
      var k :| 0 <= k < i && rules[k].Mapping? && KeyOf(rules[k]) == KeyOf(rules[i]);
      SameKeySameKind(rules, k, i);
      l := Leader(rules, k);
    }
  }

  lemma FineIsMapping(rules: seq<Value>, i: nat)
    requires AllFine(rules) && i < |rules|
    ensures rules[i].Mapping?
    ensures RoleOf(rules[i]).Specific? || RoleOf(rules[i]).Managed? || RoleOf(rules[i]).Fallback?
  {
    assert Fine(rules, i);
  }

  lemma SpecificLeader(rules: seq<Value>, k: nat) returns (l: nat)
    requires AllFine(rules) && k < |rules| && RoleOf(rules[k]).Specific?
    ensures l <= k && Leads(rules, l) && RoleOf(rules[l]).Specific? && !RoleOf(rules[l]).Fallback?
    ensures forall request: Request :: Matches(request, rules[k]) ==> Matches(request, rules[l])
  {
    FineIsMapping(rules, k);
    l := Leader(rules, k);
    KindsAreApart(rules[l]);
  }

  /** In order, nothing specific is matched by a request served by another kind of rule. */
  lemma NoneSpecificBehind(rules: seq<Value>, request: Request, i: nat)
    requires AllFine(rules) && LeadsInOrder(rules)
    requires FirstMatch(rules, request) == Some(i) && !RoleOf(rules[i]).Specific?
    ensures !SpecificMatches(rules, request)
  {
    hide RoleOf, FallbackIndex;
    FirstMatchLeads(rules, request);
    if SpecificMatches(rules, request) {
      var k :| 0 <= k < |rules| && RoleOf(rules[k]).Specific? && Matches(request, rules[k]);
      var _ := SpecificLeader(rules, k);
    }
  }

  lemma KindsAreApart(rule: Value)
    ensures !(RoleOf(rule).Specific? && RoleOf(rule).Managed?)
    ensures !(RoleOf(rule).Specific? && RoleOf(rule).Fallback?)
    ensures !(RoleOf(rule).Managed? && RoleOf(rule).Fallback?)
  {}

  /** In order, a fallback serves only what the wildcard does not match, and is the first fallback. */
  lemma FallbackIsLast(rules: seq<Value>, request: Request, i: nat)
    requires AllFine(rules) && ManagedIndex(rules).Some?
    requires FirstMatch(rules, request) == Some(i) && RoleOf(rules[i]).Fallback?
    ensures LeadsInOrder(rules) ==> FallbackIndex(rules) == Some(i) && !ManagedMatches(rules, request)
  {
    hide RoleOf;
    if LeadsInOrder(rules) {
      FirstMatchLeads(rules, request);
      FallbackIndexMeaning(rules);
      FineIsMapping(rules, FallbackIndex(rules).value);
      FineIsMapping(rules, ManagedIndex(rules).value);
      var l := Leader(rules, FallbackIndex(rules).value);
      KindsAreApart(rules[i]);
      KindsAreApart(rules[l]);
      var m := Leader(rules, ManagedIndex(rules).value);
      assert m == ManagedIndex(rules).value;
    }
  }

  /** Rules in order keep the serving rule of every request. */
  lemma OrderedIsKept(rules: seq<Value>, port: u16, request: Request)
    requires AllFine(rules) && ManagedIndex(rules).Some?
    ensures LeadsInOrder(rules) ==> Kept(rules, port, request)
  {
    hide Kept, LeadsInOrder, FallbackIndex, ManagedIndex, FirstMatch;
    KeptExactly(rules, port, request);
    if LeadsInOrder(rules) {
      match FirstMatch(rules, request)
      case None => InOrderHasFallback(rules);
      case Some(i) =>
        FineIsMapping(rules, i);
        if !RoleOf(rules[i]).Specific? {
          NoneSpecificBehind(rules, request, i);
        }
        if RoleOf(rules[i]).Fallback? {
          FallbackIsLast(rules, request, i);
        }
    }
  }

  lemma InOrderHasFallback(rules: seq<Value>)
    requires LeadsInOrder(rules)
    ensures FallbackIndex(rules).Some?
  {}

  /** A request for two rules alone. */
  function For(first: Value, second: Value): Request
    requires first.Mapping? && second.Mapping?
  {
    key => key == KeyOf(first) || key == KeyOf(second)
  }

  /** A second fallback is dropped. */
  lemma SecondFallbackShows(rules: seq<Value>, port: u16, i: nat, j: nat)
    requires AllFine(rules) && ManagedIndex(rules).Some? && i < j < |rules| && Leads(rules, j)
    requires RoleOf(rules[i]).Fallback? && RoleOf(rules[j]).Fallback?
    ensures !Kept(rules, port, For(rules[j], rules[j]))
  {
    FirstMatchIs(rules, For(rules[j], rules[j]), j);
    KeptExactly(rules, port, For(rules[j], rules[j]));
    FallbackIndexMeaning(rules);
  }

  /** A rule that moves ahead of an earlier one takes over a request for both. */
  lemma OvertakingShows(rules: seq<Value>, port: u16, i: nat, j: nat, both: Request)
    requires AllFine(rules) && ManagedIndex(rules).Some? && i < j < |rules| && rules[j].Mapping?
    requires FirstMatch(rules, both) == Some(i) && Matches(both, rules[j])
    requires if RoleOf(rules[i]).Managed? then RoleOf(rules[j]).Specific?
             else !RoleOf(rules[i]).Specific? && !RoleOf(rules[j]).Fallback?
    ensures !Kept(rules, port, both)
  {
    hide FirstMatch, RoleOf, Kept, ManagedIndex, FallbackIndex;
    KeptExactly(rules, port, both);
    assert Fine(rules, j);
    if RoleOf(rules[j]).Managed? {
      ManagedIndexMeaning(rules);
      OneManaged(rules, j, ManagedIndex(rules).value);
    }
  }

  lemma ForServes(rules: seq<Value>, i: nat, j: nat)
    requires i < j < |rules| && Leads(rules, i) && Leads(rules, j)
    ensures FirstMatch(rules, For(rules[i], rules[j])) == Some(i) && Matches(For(rules[i], rules[j]), rules[j])
  {
    FirstMatchIs(rules, For(rules[i], rules[j]), i);
  }

  lemma RolesInOvertaking(rules: seq<Value>, i: nat, j: nat)
    requires AllFine(rules) && i < j < |rules|
    requires !RoleOf(rules[i]).Specific? && !(RoleOf(rules[i]).Managed? && RoleOf(rules[j]).Fallback?)
    ensures if RoleOf(rules[i]).Managed? then RoleOf(rules[j]).Specific? else RoleOf(rules[i]).Fallback?
  {
    assert Fine(rules, i) && Fine(rules, j);
  }

  /** Two rules in the wrong order, told apart by some request. */
  lemma DisorderShows(rules: seq<Value>, port: u16, i: nat, j: nat)
    requires AllFine(rules) && ManagedIndex(rules).Some? && i < j < |rules| && Leads(rules, i) && Leads(rules, j)
    requires !RoleOf(rules[i]).Specific? && !(RoleOf(rules[i]).Managed? && RoleOf(rules[j]).Fallback?)
    ensures exists request: Request :: !Kept(rules, port, request)
  {
    RolesInOvertaking(rules, i, j);
    if RoleOf(rules[i]).Fallback? && RoleOf(rules[j]).Fallback? {
      SecondFallbackShows(rules, port, i, j);
    } else {
      ForServes(rules, i, j);
      OvertakingShows(rules, port, i, j, For(rules[i], rules[j]));
    }
  }

  /** Normalising keeps the serving rule of every request if and only if the rules were in order
      already, but for rules that repeat the key of an earlier one. */
  lemma AllKeptExactly(rules: seq<Value>, port: u16)
    requires AllFine(rules) && ManagedIndex(rules).Some?
    ensures (forall request: Request :: Kept(rules, port, request)) <==> LeadsInOrder(rules)
  {
    if LeadsInOrder(rules) {
      forall request: Request ensures Kept(rules, port, request) {
        OrderedIsKept(rules, port, request);
      }
    } else if FallbackIndex(rules).None? {
      HostlessShows(rules, port);
    } else {
      var i, j :| 0 <= i < j < |rules| && Leads(rules, i) && Leads(rules, j) &&
        !RoleOf(rules[i]).Specific? && !(RoleOf(rules[i]).Managed? && RoleOf(rules[j]).Fallback?);
      DisorderShows(rules, port, i, j);
    }
  }

  /** Without a fallback, the default one takes over requests for no host. */
  lemma HostlessShows(rules: seq<Value>, port: u16)
    requires AllFine(rules) && ManagedIndex(rules).Some? && FallbackIndex(rules).None?
    ensures exists request: Request :: !Kept(rules, port, request)
  {
    var hostless: Request := key => key == (None, None);
    FallbackIndexMeaning(rules);
    forall i | 0 <= i < |rules| ensures !Matches(hostless, rules[i]) {
      assert Fine(rules, i);
    }
    KeptExactly(rules, port, hostless);
    assert !Kept(rules, port, hostless);
  }
}
