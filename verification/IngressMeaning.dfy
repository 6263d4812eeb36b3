/** What normalising means: which documents are accepted, and what a second normalising does. */
module IngressMeaning {
  import opened Wrappers
  import opened Text
  import opened Protocol
  import opened Ingress
  import Slug

  // ---------------------------------------------------------------------------------------------
  // Exactly which documents are accepted
  // ---------------------------------------------------------------------------------------------

  predicate Hostless(rule: Value) {
    rule.Mapping? && Get(rule.entries, "hostname").None?
  }

  /** A rule without a path whose host name starts with `*.`. */
  predicate Starred(rule: Value) {
    && rule.Mapping?
    && Get(rule.entries, "path").None?
    && AsStr(Get(rule.entries, "hostname")).Some?
    && IsStarred(AsStr(Get(rule.entries, "hostname")).value)
  }

  predicate StarIsDomain(rule: Value)
    requires Starred(rule)
  {
    IsDomain(Lower(AsStr(Get(rule.entries, "hostname")).value[2..]))
  }

  predicate IsFallback(rule: Value)
    requires rule.Mapping?
  {
    AsStr(Get(rule.entries, "service")) == Some("http_status:404")
  }

  ghost predicate AcceptableRules(rules: seq<Value>) {
    && (forall i :: 0 <= i < |rules| ==> rules[i].Mapping?)
    && (forall i :: 0 <= i < |rules| && Hostless(rules[i]) ==> IsFallback(rules[i]))
    && (forall i :: 0 <= i < |rules| && Starred(rules[i]) ==> StarIsDomain(rules[i]))
    && (exists i :: 0 <= i < |rules| && Starred(rules[i]))
    && (forall i, j :: 0 <= i < |rules| && 0 <= j < |rules| && Starred(rules[i]) && Starred(rules[j]) ==> i == j)
  }

  /** No two fine rules are managed. */
  lemma OneManaged(rules: seq<Value>, i: nat, j: nat)
    requires i < |rules| && j < |rules| && Fine(rules, i) && Fine(rules, j)
    requires RoleOf(rules[i]).Managed? && RoleOf(rules[j]).Managed?
    ensures i == j
  {}

  lemma AcceptableIsFine(rules: seq<Value>)
    ensures AcceptableRules(rules) <==> AllFine(rules) && ManagedIndex(rules).Some?
  {
    ManagedIndexMeaning(rules);
    forall i | 0 <= i < |rules| ensures RoleOf(rules[i]).Managed? || RoleOf(rules[i]).BadWildcard? <==> Starred(rules[i]) {}
    if AcceptableRules(rules) {
      forall i | 0 <= i < |rules| ensures Fine(rules, i) {
        assert Hostless(rules[i]) ==> IsFallback(rules[i]);
        assert Starred(rules[i]) ==> StarIsDomain(rules[i]);
      }
    }
    if AllFine(rules) {
      forall i | 0 <= i < |rules| ensures rules[i].Mapping? && (Hostless(rules[i]) ==> IsFallback(rules[i])) {
        assert Fine(rules, i);
      }
      forall i | 0 <= i < |rules| && Starred(rules[i]) ensures RoleOf(rules[i]).Managed? && StarIsDomain(rules[i]) {
        assert Fine(rules, i);
      }
      forall i, j | 0 <= i < |rules| && 0 <= j < |rules| && Starred(rules[i]) && Starred(rules[j]) ensures i == j {
        OneManaged(rules, i, j);
      }
    }
  }

  /** Exact acceptance, in the words of the configuration. */
  lemma ExactAcceptance(document: Value)
    ensures Accepted(document) <==>
            && document.Mapping?
            && Get(document.entries, "ingress").Some?
            && Get(document.entries, "ingress").value.Sequence?
            && AcceptableRules(Get(document.entries, "ingress").value.items)
  {
    if RulesOf(document).Ok? {
      AcceptableIsFine(RulesOf(document).value);
    }
  }

  lemma ProblemIsNotFine(rules: seq<Value>, i: nat, e: IngressError)
    requires i < |rules| && ProblemAt(rules, i, e)
    ensures !Fine(rules, i)
  {}

  lemma ProblemIsUnique(rules: seq<Value>, i: nat, e: IngressError, f: IngressError)
    requires FirstProblem(rules, i, e) && FirstProblem(rules, i, f)
    ensures e == f
  {
    match RoleOf(rules[i])
    case Managed(hostname, _) =>
      var a :| 0 <= a < i && RoleOf(rules[a]).Managed? && e == Ambiguous(a, RoleOf(rules[a]).hostname, i, hostname);
      var b :| 0 <= b < i && RoleOf(rules[b]).Managed? && f == Ambiguous(b, RoleOf(rules[b]).hostname, i, hostname);
      OneManaged(rules, a, b);
    case _ =>
  }

  lemma FirstProblemIsUnique(rules: seq<Value>, i: nat, e: IngressError, j: nat, f: IngressError)
    requires FirstProblem(rules, i, e) && FirstProblem(rules, j, f)
    ensures i == j && e == f && !AllFine(rules)
  {
    ProblemIsNotFine(rules, i, e);
    ProblemIsNotFine(rules, j, f);
    ProblemIsUnique(rules, i, e, f);
  }

  /** A refused document is refused for one reason, and it is not accepted. */
  lemma RefusalIsUnique(document: Value, e: IngressError, f: IngressError)
    requires RefusedFor(document, e) && RefusedFor(document, f)
    ensures e == f && !Accepted(document)
  {
    match RulesOf(document)
    case Err(_) =>
    case Ok(rules) =>
      if !AllFine(rules) {
        var i: nat :| FirstProblem(rules, i, e);
        var j: nat :| FirstProblem(rules, j, f);
        FirstProblemIsUnique(rules, i, e, j, f);
      }
  }

  function HostnameOf(rule: Value): Option<string> {
    if rule.Mapping? then AsStr(Get(rule.entries, "hostname")) else None
  }

  /** What is wrong with rule `i`, in the words of the configuration. */
  ghost predicate AtFault(rules: seq<Value>, i: nat)
    requires i < |rules|
  {
    || !rules[i].Mapping?
    || (Hostless(rules[i]) && !IsFallback(rules[i]))
    || (Starred(rules[i]) && (!StarIsDomain(rules[i]) || exists j :: 0 <= j < i && Starred(rules[j])))
  }

  /** Rule `i` is the first at fault. */
  ghost predicate FirstFault(rules: seq<Value>, i: nat) {
    i < |rules| && AtFault(rules, i) && forall k :: 0 <= k < i ==> !AtFault(rules, k)
  }

  lemma StarredRoles(rule: Value)
    ensures Starred(rule) <==> RoleOf(rule).Managed? || RoleOf(rule).BadWildcard?
    ensures Starred(rule) ==> HostnameOf(rule) == Some(RoleOf(rule).hostname) && (StarIsDomain(rule) <==> RoleOf(rule).Managed?)
    ensures RoleOf(rule).NotMapping? <==> !rule.Mapping?
    ensures RoleOf(rule).BadCatchAll? <==> Hostless(rule) && !IsFallback(rule)
  {
  }

  lemma FineIsFaultless(rules: seq<Value>, i: nat)
    requires i < |rules| && forall k :: 0 <= k <= i ==> Fine(rules, k)
    ensures !AtFault(rules, i)
  {
    hide RoleOf, Starred, StarIsDomain, Hostless, IsFallback;
    forall k | 0 <= k <= i ensures Starred(rules[k]) <==> RoleOf(rules[k]).Managed? {
      StarredRoles(rules[k]);
      assert Fine(rules, k);
    }
    StarredRoles(rules[i]);
    assert Fine(rules, i);
  }

  /** What a refusal says of the rules. */
  ghost predicate Blames(rules: seq<Value>, error: IngressError) {
    match error
    case RuleNotMapping(i) => FirstFault(rules, i) && !rules[i].Mapping?
    case HostlessRule(i) => FirstFault(rules, i) && Hostless(rules[i]) && !IsFallback(rules[i])
    case BadHostname(i, hostname) =>
      FirstFault(rules, i) && Starred(rules[i]) && !StarIsDomain(rules[i]) && HostnameOf(rules[i]) == Some(hostname)
    case Ambiguous(j, first, i, hostname) =>
      && FirstFault(rules, i) && j < i && Starred(rules[j]) && Starred(rules[i]) && StarIsDomain(rules[i])
      && HostnameOf(rules[j]) == Some(first) && HostnameOf(rules[i]) == Some(hostname)
    case NoWildcard => forall i :: 0 <= i < |rules| ==> !AtFault(rules, i) && !Starred(rules[i])
    case _ => false
  }

  lemma ProblemBlames(rules: seq<Value>, i: nat, error: IngressError)
    requires FirstProblem(rules, i, error)
    ensures Blames(rules, error)
  {
    forall k | 0 <= k < i ensures !AtFault(rules, k) {
      FineIsFaultless(rules, k);
    }
    StarredRoles(rules[i]);
    hide RoleOf, Starred, StarIsDomain, Hostless, IsFallback, Fine;
    if RoleOf(rules[i]).Managed? {
      var hostname := RoleOf(rules[i]).hostname;
      var j :| 0 <= j < i && RoleOf(rules[j]).Managed? && error == Ambiguous(j, RoleOf(rules[j]).hostname, i, hostname);
      StarredRoles(rules[j]);
    }
  }

  /** A refusal names the first rule at fault, what is wrong with it, and the host names concerned;
      or that no rule is at fault and none is a wildcard; or what is wrong with the document. */
  lemma RefusalMeaning(document: Value, error: IngressError)
    requires RefusedFor(document, error)
    ensures match error
            case NoMappingAtRoot => !document.Mapping?
            case IngressNotSequence =>
              && document.Mapping? && Get(document.entries, "ingress").Some?
              && !Get(document.entries, "ingress").value.Sequence?
            case _ => RulesOf(document).Ok? && Blames(RulesOf(document).value, error)
  {
    if RulesOf(document).Ok? {
      var rules := RulesOf(document).value;
      if AllFine(rules) {
        ManagedIndexMeaning(rules);
        forall i | 0 <= i < |rules| ensures !AtFault(rules, i) && !Starred(rules[i]) {
          FineIsFaultless(rules, i);
          StarredRoles(rules[i]);
        }
      } else {
        var i: nat :| FirstProblem(rules, i, error);
        ProblemBlames(rules, i, error);
      }
    }
  }

  /** Nothing outside `ingress` changes. */
  lemma RestIsKept(document: Value, port: u16, key: string)
    requires Accepted(document) && key != "ingress"
    ensures var normalized := Normalized(document, port).value.0;
            normalized.Mapping? && |normalized.entries| == |document.entries| &&
            Get(normalized.entries, key) == Get(document.entries, key)
  {
    var rules := Sequence(Rewritten(RulesOf(document).value, port));
    InsertMeaning(document.entries, "ingress", rules, rules, key);
    ExactAcceptance(document);
  }

  /** The base domain is a domain name in lower case. */
  lemma BaseDomainIsLower(document: Value, port: u16)
    requires Accepted(document)
    ensures var domain := Normalized(document, port).value.1;
            IsDomain(domain) && Lower(domain) == domain
  {
    var rules := RulesOf(document).value;
    var hostname := AsStr(Get(rules[ManagedIndex(rules).value].entries, "hostname")).value;
    LowerFacts(hostname[2..], "");
  }

  // ---------------------------------------------------------------------------------------------
  // Last port wins
  // ---------------------------------------------------------------------------------------------

  /** Setting the service changes neither host name nor path, hence not what a rule with a host
      name is. */
  lemma PatchedKeepsRole(rule: Value, p: u16, q: u16)
    requires rule.Mapping? && Get(rule.entries, "hostname").Some?
    ensures RoleOf(Patched(rule, p)) == RoleOf(rule)
    ensures Get(Patched(rule, p).entries, "hostname") == Get(rule.entries, "hostname")
    ensures Get(Patched(rule, p).entries, "path") == Get(rule.entries, "path")
    ensures Get(Patched(rule, p).entries, "service") == Some(Str(LoopbackUrl(p)))
    ensures Patched(Patched(rule, p), q) == Patched(rule, q)
  {
    InsertMeaning(rule.entries, "service", Str(LoopbackUrl(p)), Str(LoopbackUrl(q)), "hostname");
    InsertMeaning(rule.entries, "service", Str(LoopbackUrl(p)), Str(LoopbackUrl(q)), "path");
  }

  /** Nor anything else of the rule. */
  lemma PatchedKeepsRest(rule: Value, port: u16, key: string)
    requires rule.Mapping? && key != "service"
    ensures Patched(rule, port).Mapping? && Get(Patched(rule, port).entries, key) == Get(rule.entries, key)
  {
    InsertMeaning(rule.entries, "service", Str(LoopbackUrl(port)), Str(LoopbackUrl(port)), key);
  }

  lemma {:induction false} SpecificIndicesMeaning(rules: seq<Value>)
    ensures var r := SpecificIndices(rules);
            && (forall j :: 0 <= j < |r| ==> RoleOf(rules[r[j]]).Specific?)
            && (forall j, k :: 0 <= j < k < |r| ==> r[j] < r[k])
            && (forall i :: 0 <= i < |rules| && RoleOf(rules[i]).Specific? ==> i in r)
    decreases |rules|
  {
    if rules != [] {
      var n := |rules| - 1;
      SpecificIndicesMeaning(rules[..n]);
      forall i | 0 <= i < |rules| && RoleOf(rules[i]).Specific? ensures i in SpecificIndices(rules) {
        if i < n {
          assert rules[..n][i] == rules[i];
        } else {
          assert SpecificIndices(rules)[|SpecificIndices(rules)| - 1] == n;
        }
      }
    }
  }

  lemma OneMore(rules: seq<Value>, last: Value)
    ensures var more := rules + [last];
            && SpecificIndices(more) ==
              (if RoleOf(last).Specific? then SpecificIndices(rules) + [|rules|] else SpecificIndices(rules))
            && ManagedIndex(more) ==
              (if ManagedIndex(rules).None? && RoleOf(last).Managed? then Some(|rules|) else ManagedIndex(rules))
            && FallbackIndex(more) ==
              (if FallbackIndex(rules).None? && RoleOf(last).Fallback? then Some(|rules|) else FallbackIndex(rules))
  {
    assert (rules + [last])[..|rules|] == rules;
  }

  lemma SpecificNext(rules: seq<Value>, last: Value)
    requires RoleOf(last).Specific?
    ensures SpecificRules(rules + [last]) == SpecificRules(rules) + [last]
  {
    OneMore(rules, last);
    hide RoleOf, SpecificIndices, ManagedIndex, FallbackIndex;
    var indices := SpecificIndices(rules);
    assert forall j :: 0 <= j < |indices| ==> (rules + [last])[indices[j]] == rules[indices[j]];
  }

  lemma {:induction false} AllSpecific(rules: seq<Value>)
    requires forall i :: 0 <= i < |rules| ==> RoleOf(rules[i]).Specific?
    ensures SpecificRules(rules) == rules && ManagedIndex(rules).None? && FallbackIndex(rules).None?
    ensures |SpecificIndices(rules)| == |rules|
    decreases |rules|
  {
    if rules != [] {
      hide RoleOf, SpecificRules, SpecificIndices, ManagedIndex, FallbackIndex;
      var n := |rules| - 1;
      AllSpecific(rules[..n]);
      OneMore(rules[..n], rules[n]);
      SpecificNext(rules[..n], rules[n]);
      assert rules == rules[..n] + [rules[n]];
    }
  }

  lemma DefaultIsFallback()
    ensures RoleOf(DEFAULT_FALLBACK).Fallback?
    ensures DEFAULT_FALLBACK == Mapping([Entry(Str("service"), Str("http_status:404"))])
  {
    var entries := DEFAULT_FALLBACK.entries;
    assert |"hostname"| != |"service"| && entries[1..] == [];
    assert Get(entries, "hostname").None? && Get(entries, "service") == Some(Str(FALLBACK_SERVICE));
  }

  /** The managed rule and the fallback of rules that end in them. */
  lemma NormalEnd(specific: seq<Value>, managed: Value, fallback: Value)
    requires RoleOf(managed).Managed? && RoleOf(fallback).Fallback?
    requires ManagedIndex(specific).None? && FallbackIndex(specific).None?
    ensures var rules := specific + [managed] + [fallback];
            && SpecificIndices(rules) == SpecificIndices(specific)
            && ManagedIndex(rules) == Some(|specific|)
            && FallbackIndex(rules) == Some(|specific| + 1)
  {
    hide RoleOf, SpecificIndices, ManagedIndex, FallbackIndex;
    OneMore(specific, managed);
    OneMore(specific + [managed], fallback);
  }

  /** Rules in the normal form are sorted into themselves. */
  lemma NormalForm(specific: seq<Value>, managed: Value, fallback: Value)
    requires forall i :: 0 <= i < |specific| ==> RoleOf(specific[i]).Specific?
    requires RoleOf(managed).Managed? && RoleOf(fallback).Fallback?
    ensures var rules := specific + [managed] + [fallback];
            && AllFine(rules)
            && SpecificRules(rules) == specific
            && ManagedIndex(rules) == Some(|specific|)
            && FallbackIndex(rules) == Some(|specific| + 1)
  {
    hide RoleOf, SpecificRules, SpecificIndices, ManagedIndex, FallbackIndex, AllFine;
    AllSpecific(specific);
    NormalEnd(specific, managed, fallback);
    assert specific + ([managed] + [fallback]) == specific + [managed] + [fallback];
    SameSpecific(specific, [managed] + [fallback]);
    NormalIsFine(specific, managed, fallback);
  }

  lemma SameSpecific(specific: seq<Value>, rest: seq<Value>)
    requires SpecificIndices(specific + rest) == SpecificIndices(specific)
    ensures SpecificRules(specific + rest) == SpecificRules(specific)
  {
    hide SpecificIndices;
    var indices := SpecificIndices(specific);
    assert forall j :: 0 <= j < |indices| ==> (specific + rest)[indices[j]] == specific[indices[j]];
  }

  lemma NormalIsFine(specific: seq<Value>, managed: Value, fallback: Value)
    requires forall i :: 0 <= i < |specific| ==> RoleOf(specific[i]).Specific?
    requires RoleOf(managed).Managed? && RoleOf(fallback).Fallback?
    ensures AllFine(specific + [managed] + [fallback])
  {
    hide RoleOf;
    var rules := specific + [managed] + [fallback];
    assert forall i :: 0 <= i < |specific| ==> rules[i] == specific[i];
  }

  /** Normalising for port `p` and then for port `q` is normalising for `q`: rules, base domain and
      key order. With `p == q`, normalising is idempotent. What is refused does not depend on the
      port. */
  lemma LastPortWins(document: Value, p: u16, q: u16)
    ensures match Normalized(document, p)
            case None => Normalized(document, q) == None
            case Some((normalized, _)) => Normalized(normalized, q) == Normalized(document, q)
  {
    if Accepted(document) {
      var rules := RulesOf(document).value;
      var m := rules[ManagedIndex(rules).value];
      PatchedKeepsRole(m, p, q);
      SpecificIndicesMeaning(rules);
      var specific := SpecificRules(rules);
      var f := FallbackIndex(rules);
      var fallback := if f.Some? then rules[f.value] else DEFAULT_FALLBACK;
      DefaultIsFallback();
      assert RoleOf(m).Managed? && Get(m.entries, "hostname").Some?;
      NormalForm(specific, Patched(m, p), fallback);
      InsertMeaning(document.entries, "ingress", Sequence(Rewritten(rules, p)), Sequence(Rewritten(rules, q)), "");
    }
  }

  // ---------------------------------------------------------------------------------------------
  // Domain names
  // ---------------------------------------------------------------------------------------------

  /** The labels of a domain are slugs, but for upper case and numbers: the normaliser's syntax and
      that of the slug validators agree. */
  lemma LabelsAndSlugs(part: string)
    ensures Slug.IsSlug(part) <==>
            IsDomainLabel(part) && Lower(part) == part && exists c :: c in part && !IsDigit(c)
    ensures IsDomainLabel(part) <==> IsDomainLabel(Lower(part))
  {
    LowerKeepsLabel(part);
    if Lower(part) == part {
      assert forall i :: 0 <= i < |part| ==> LowerByte(part[i]) == part[i];
      assert forall i :: 0 <= i < |part| ==> part[i] in part;
    }
    if Slug.IsSlug(part) {
      Slug.SlugIsLower(part);
    }
  }

  lemma LowerKeepsLabel(part: string)
    ensures IsDomainLabel(part) <==> IsDomainLabel(Lower(part))
  {
    var low := Lower(part);
    assert forall i :: 0 <= i < |part| ==> part[i] in part && low[i] in low;
    assert forall i :: 0 <= i < |part| ==> (low[i] == '-' <==> part[i] == '-');
    assert forall i :: 0 <= i < |part| ==> (IsAlphanumeric(low[i]) <==> IsAlphanumeric(part[i]));
  }

  lemma {:induction false} LabelsOfJoined(labels: seq<string>)
    requires labels != [] && forall l :: l in labels ==> '.' !in l
    ensures Labels(Joined(labels)) == labels
  {
    if |labels| == 1 {
      LabelsOfOne(labels[0], "");
      assert labels[0] + "" == labels[0];
    } else {
      LabelsOfJoined(labels[1..]);
      var rest := labels[1..];
      LabelsOfOne(labels[0], "." + Joined(rest));
      assert labels[0] + "." + Joined(rest) == labels[0] + ("." + Joined(rest));
      assert ("." + Joined(rest))[1..] == Joined(rest);
      assert ([""] + rest)[1..] == rest && labels[0] + "" == labels[0];
      assert labels == [labels[0]] + rest;
    }
  }

  lemma {:induction false} LabelsOfOne(l: string, rest: string)
    requires '.' !in l
    ensures Labels(l + rest) == [l + Labels(rest)[0]] + Labels(rest)[1..]
  {
    if l == "" {
      assert l + rest == rest;
      assert "" + Labels(rest)[0] == Labels(rest)[0];
      assert Labels(rest) == [Labels(rest)[0]] + Labels(rest)[1..];
    } else {
      LabelsOfOne(l[1..], rest);
      assert (l + rest)[1..] == l[1..] + rest;
      var tail := Labels(rest)[1..];
      assert ([l[1..] + Labels(rest)[0]] + tail)[1..] == tail;
      assert [l[0]] + (l[1..] + Labels(rest)[0]) == l + Labels(rest)[0];
    }
  }

  predicate IsLetterDigitHyphen(c: char) {
    c in "abcdefghijklmnopqrstuvwxyz" || c in "ABCDEFGHIJKLMNOPQRSTUVWXYZ" || c in "0123456789" || c == '-'
  }

  lemma LabelSpelled(l: string)
    ensures IsDomainLabel(l) <==>
            && 1 <= |l| <= 63 && l[0] != '-' && l[|l| - 1] != '-'
            && forall c :: c in l ==> IsLetterDigitHyphen(c)
  {
    forall c ensures IsLetterDigitHyphen(c) <==> IsAlphanumeric(c) || c == '-' {
      LowerLettersSpelled(c);
      UpperLettersSpelled(c);
      DigitLettersSpelled(c);
      hide IsLower, IsUpper, IsDigit;
    }
    hide IsLetterDigitHyphen, IsAlphanumeric;
  }

  /** A domain is exactly what joins labels of letters, digits and inner hyphens by dots, in at most
      253 bytes. */
  lemma DomainsSpelled(labels: seq<string>)
    requires labels != [] && forall l :: l in labels ==> '.' !in l
    ensures IsDomain(Joined(labels)) <==>
            1 <= |Joined(labels)| <= 253
            && forall l :: l in labels ==>
                 && 1 <= |l| <= 63 && l[0] != '-' && l[|l| - 1] != '-'
                 && forall c :: c in l ==> IsLetterDigitHyphen(c)
  {
    LabelsOfJoined(labels);
    forall l | l in labels
      ensures IsDomainLabel(l) <==>
              && 1 <= |l| <= 63 && l[0] != '-' && l[|l| - 1] != '-'
              && forall c :: c in l ==> IsLetterDigitHyphen(c)
    {
      LabelSpelled(l);
    }
    hide IsDomainLabel, IsLetterDigitHyphen, Labels, Joined;
  }
}
