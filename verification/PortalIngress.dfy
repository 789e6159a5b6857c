/** The tunnel rules written by scripts/phase29b/activate_portal_hostname.py
    (build_portal_ingress). */
module PortalIngress {
  import opened Prelude

  /** One ingress rule; a missing field is None, and `other` is everything else in it. */
  datatype Rule = Rule(hostname: Option<string>, service: Option<string>, other: map<string, string>)

  function PortalHost(): string { "ai.vip-e.net" }

  function PortalService(): string { "http://nginx:8082" }

  function CatchAllService(): string { "http_status:404" }

  function ApiHost(): string { "api.vip-e.net" }

  function ApiService(): string { "http://nginx:8080" }

  function GabarotHost(): string { "gabarot.vip-e.net" }

  function GabarotService(): string { "http://nginx:8081" }

  // ----- text -----

  function LowerChar(c: char): char { if 'A' <= c <= 'Z' then c + 32 as char else c }

  function Lower(s: string): (r: string)
    ensures |r| == |s| && forall i | 0 <= i < |s| :: r[i] == LowerChar(s[i])
  {
    if s == "" then "" else [LowerChar(s[0])] + Lower(s[1..])
  }

  /** The characters str.strip removes. */
  predicate IsSpace(c: char) { '\t' <= c <= '\r' || '\U{1C}' <= c <= ' ' || (c >= '\U{85}' && IsWideSpace(c)) }

  predicate IsWideSpace(c: char) {
    || c == '\U{85}' || c == '\U{A0}' || c == '\U{1680}' || '\U{2000}' <= c <= '\U{200A}'
    || c == '\U{2028}' || c == '\U{2029}' || c == '\U{202F}' || c == '\U{205F}' || c == '\U{3000}'
  }

  function Strip(s: string): string {
    if s != "" && IsSpace(s[0]) then Strip(s[1..])
    else if s != "" && IsSpace(s[|s| - 1]) then Strip(s[..|s| - 1])
    else s
  }

  function TextOf(t: Option<string>): string { match t case None => "" case Some(s) => s }

  /** The key of `named`. */
  function Host(r: Rule): string { Lower(Strip(TextOf(r.hostname))) }

  /** What the filter of the result compares. */
  function Plain(r: Rule): string { Lower(TextOf(r.hostname)) }

  function Service(r: Rule): string { TextOf(r.service) }

  lemma {:induction false} LowerStaysLower(s: string)
    requires forall i | 0 <= i < |s| :: !('A' <= s[i] <= 'Z')
    ensures Lower(s) == s
  {
    if s != "" { LowerStaysLower(s[1..]); }
  }

  lemma PortalIsPlain(s: string)
    requires Lower(s) == PortalHost()
    ensures Strip(s) == s
  {
    assert PortalHost()[0] == LowerChar(s[0]) && PortalHost()[|s| - 1] == LowerChar(s[|s| - 1]);
  }

  lemma PortalLower()
    ensures Lower(PortalHost()) == PortalHost()
  {
    LowerStaysLower(PortalHost());
  }

  lemma PortalDiffers()
    ensures PortalHost() != ApiHost() && PortalHost() != GabarotHost()
  {
    assert PortalHost()[1] != ApiHost()[1] && |PortalHost()| != |GabarotHost()|;
  }

  lemma HostsNotEmpty()
    ensures ApiHost() != "" && GabarotHost() != "" && PortalHost() != ""
  {
  }

  lemma PortalServiceVisible()
    ensures Strip(PortalService()) != ""
  {
    assert PortalService()[0] == 'h' && PortalService()[|PortalService()| - 1] == '2';
  }

  // ----- what build_portal_ingress accepts and returns -----

  /** The rules with a hostname, in order. */
  function Ordered(rules: seq<Rule>): seq<Rule> {
    if rules == [] then []
    else Ordered(rules[..|rules| - 1]) + if Host(rules[|rules| - 1]) != "" then [rules[|rules| - 1]] else []
  }

  function CatchAlls(rules: seq<Rule>): seq<Rule> {
    if rules == [] then []
    else CatchAlls(rules[..|rules| - 1]) + if Host(rules[|rules| - 1]) == "" then [rules[|rules| - 1]] else []
  }

  /** The rules left when those for the portal are taken out. */
  function Others(rules: seq<Rule>): seq<Rule> {
    if rules == [] then []
    else Others(rules[..|rules| - 1]) + if Plain(rules[|rules| - 1]) != PortalHost() then [rules[|rules| - 1]] else []
  }

  predicate DistinctHosts(rules: seq<Rule>) {
    forall i, j | 0 <= i < j < |rules| :: Host(rules[i]) != Host(rules[j])
  }

  predicate Serves(rules: seq<Rule>, host: string, service: string) {
    exists i | 0 <= i < |rules| :: Host(rules[i]) == host && Service(rules[i]) == service
  }

  predicate ServicesPresent(rules: seq<Rule>) {
    forall i | 0 <= i < |rules| :: Strip(Service(rules[i])) != ""
  }

  predicate Accepted(rules: seq<Rule>) {
    && ServicesPresent(rules) && DistinctHosts(Ordered(rules))
    && |CatchAlls(rules)| == 1 && Service(CatchAlls(rules)[0]) == CatchAllService()
    && Serves(Ordered(rules), ApiHost(), ApiService())
    && Serves(Ordered(rules), GabarotHost(), GabarotService())
  }

  /** The other fields of the rule for the portal, if there is one. */
  function PortalFields(rules: seq<Rule>): map<string, string> {
    if rules == [] then map[]
    else if Host(rules[|rules| - 1]) == PortalHost() then rules[|rules| - 1].other
    else PortalFields(rules[..|rules| - 1])
  }

  function PortalRule(fields: map<string, string>): Rule { Rule(Some(PortalHost()), Some(PortalService()), fields) }

  /** Every other rule in its order, then the portal, then the one catch-all. */
  function Built(rules: seq<Rule>): seq<Rule>
    requires Accepted(rules)
  {
    Others(Ordered(rules)) + [PortalRule(PortalFields(Ordered(rules))), CatchAlls(rules)[0]]
  }

  // ----- the method -----

  ghost predicate Indexes(named: map<string, Rule>, ordered: seq<Rule>) {
    && (forall i | 0 <= i < |ordered| :: Host(ordered[i]) in named && named[Host(ordered[i])] == ordered[i])
    && (forall h | h in named :: exists i | 0 <= i < |ordered| :: Host(ordered[i]) == h)
  }

  lemma OrderedMore(rules: seq<Rule>, n: nat)
    requires n < |rules|
    ensures Ordered(rules[..n + 1]) == Ordered(rules[..n]) + if Host(rules[n]) != "" then [rules[n]] else []
    ensures CatchAlls(rules[..n + 1]) == CatchAlls(rules[..n]) + if Host(rules[n]) == "" then [rules[n]] else []
  {
    assert rules[..n + 1][..n] == rules[..n];
  }

  lemma {:induction false} PrefixOrdered(rules: seq<Rule>, n: nat)
    requires n <= |rules|
    ensures Ordered(rules[..n]) <= Ordered(rules) && CatchAlls(rules[..n]) <= CatchAlls(rules)
    decreases |rules| - n
  {
    if n < |rules| {
      OrderedMore(rules, n);
      hide Ordered, CatchAlls, Host;
      PrefixOrdered(rules, n + 1);
    } else {
      assert rules[..n] == rules;
    }
  }

  lemma PrefixRefused(rules: seq<Rule>, n: nat)
    requires n <= |rules|
    requires !DistinctHosts(Ordered(rules[..n])) || |CatchAlls(rules[..n])| > 1
    ensures !Accepted(rules)
  {
    PrefixOrdered(rules, n);
    hide Ordered, CatchAlls, Host, Serves, ServicesPresent;
    var p, all := Ordered(rules[..n]), Ordered(rules);
    if !DistinctHosts(p) {
      var i, j :| 0 <= i < j < |p| && Host(p[i]) == Host(p[j]);
      assert all[i] == p[i] && all[j] == p[j];
    }
  }

  lemma IndexMore(named: map<string, Rule>, ordered: seq<Rule>, r: Rule)
    requires Indexes(named, ordered) && Host(r) !in named
    ensures Indexes(named[Host(r) := r], ordered + [r])
    ensures DistinctHosts(ordered) ==> DistinctHosts(ordered + [r])
  {
    hide Host;
    var more := ordered + [r];
    forall i | 0 <= i < |ordered| ensures Host(more[i]) in named && more[i] == ordered[i] {
      assert Host(ordered[i]) in named;
    }
    var index := named[Host(r) := r];
    forall h | h in index ensures exists i | 0 <= i < |more| :: Host(more[i]) == h {
      if h in named {
        var i :| 0 <= i < |ordered| && Host(ordered[i]) == h;
        assert Host(more[i]) == h;
      } else {
        assert Host(more[|ordered|]) == h;
      }
    }
  }

  lemma IndexClash(named: map<string, Rule>, ordered: seq<Rule>, r: Rule)
    requires Indexes(named, ordered) && Host(r) in named
    ensures !DistinctHosts(ordered + [r])
  {
    hide Host;
    var i :| 0 <= i < |ordered| && Host(ordered[i]) == Host(r);
    var more := ordered + [r];
    assert more[i] == ordered[i] && more[|ordered|] == r;
  }

  lemma BlankRefused(rules: seq<Rule>, n: nat)
    requires n < |rules| && Strip(Service(rules[n])) == ""
    ensures !Accepted(rules)
  {
    hide Strip, DistinctHosts, Serves, Ordered, CatchAlls;
  }

  lemma Empty()
    ensures DistinctHosts([]) && Indexes(map[], []) && Ordered([]) == [] && CatchAlls([]) == []
  {
  }

  /** What the loop of build_portal_ingress has collected. */
  datatype Collected = Collected(named: map<string, Rule>, ordered: seq<Rule>, catchAll: Option<Rule>)

  ghost predicate Collects(c: Collected, rules: seq<Rule>) {
    && c.ordered == Ordered(rules) && Indexes(c.named, c.ordered) && DistinctHosts(c.ordered)
    && CatchAlls(rules) == (match c.catchAll case None => [] case Some(r) => [r])
  }

  method Collect(rules: seq<Rule>) returns (c: Option<Collected>)
    ensures match c
      case None => !Accepted(rules)
      case Some(all) => Collects(all, rules) && ServicesPresent(rules)
  {
    var all := Collected(map[], [], None);
    var n := 0;
    Empty();
    hide Host, Strip, Accepted, Collects, Service;
    assert Collects(all, rules[..0]) by { EmptyCollects(rules); }
    while n < |rules|
      invariant n <= |rules| && Collects(all, rules[..n])
      invariant forall i | 0 <= i < n :: Strip(Service(rules[i])) != ""
    {
      if Strip(Service(rules[n])) == "" {
        BlankRefused(rules, n);
        return None;
      }
      var next := CollectOne(all, rules[n], rules, n);
      if next.None? { return None; }
      all := next.value;
      n := n + 1;
    }
    assert rules[..n] == rules;
    return Some(all);
  }

  lemma EmptyCollects(rules: seq<Rule>)
    ensures Collects(Collected(map[], [], None), rules[..0])
  {
  }

  /** One rule with a service, filed under its hostname or as the catch-all. */
  method CollectOne(all: Collected, rule: Rule, ghost rules: seq<Rule>, ghost n: nat) returns (next: Option<Collected>)
    requires n < |rules| && rule == rules[n] && Collects(all, rules[..n])
    ensures match next
      case None => !Accepted(rules)
      case Some(c) => Collects(c, rules[..n + 1])
  {
    hide Collects, Host, Accepted;
    var hostname := Host(rule);
    if hostname == "" {
      CollectsCatchAll(all, rules, n);
      return if all.catchAll.Some? then None else Some(all.(catchAll := Some(rule)));
    }
    CollectsHost(all, rules, n);
    if hostname in all.named {
      return None;
    }
    return Some(all.(named := all.named[hostname := rule], ordered := all.ordered + [rule]));
  }

  lemma CollectsCatchAll(all: Collected, rules: seq<Rule>, n: nat)
    requires n < |rules| && Collects(all, rules[..n]) && Host(rules[n]) == ""
    ensures all.catchAll.Some? ==> !Accepted(rules)
    ensures all.catchAll.None? ==> Collects(all.(catchAll := Some(rules[n])), rules[..n + 1])
  {
    OrderedMore(rules, n);
    hide Ordered, CatchAlls, Host, Accepted, DistinctHosts, Indexes;
    if all.catchAll.Some? { PrefixRefused(rules, n + 1); }
  }

  lemma CollectsHost(all: Collected, rules: seq<Rule>, n: nat)
    requires n < |rules| && Collects(all, rules[..n]) && Host(rules[n]) != ""
    ensures Host(rules[n]) in all.named ==> !Accepted(rules)
    ensures Host(rules[n]) !in all.named ==>
      var named := all.named[Host(rules[n]) := rules[n]];
      Collects(all.(named := named, ordered := all.ordered + [rules[n]]), rules[..n + 1])
  {
    OrderedMore(rules, n);
    hide Ordered, CatchAlls, Host, Accepted, DistinctHosts, Indexes;
    if Host(rules[n]) in all.named {
      IndexClash(all.named, all.ordered, rules[n]);
      PrefixRefused(rules, n + 1);
    } else {
      IndexMore(all.named, all.ordered, rules[n]);
    }
  }

  /** build_portal_ingress: None stands for a configuration without a list of rules. */
  method BuildPortalIngress(existing: Option<seq<Rule>>) returns (r: Option<seq<Rule>>)
    ensures r == Rebuilt(existing)
  {
    if existing.None? || existing.value == [] {
      Empty();
      return None;
    }
    hide Host, Strip, Accepted, Built, Others, Collects, Names, NamedFields, Service;
    hide ApiHost, ApiService, GabarotHost, GabarotService, PortalHost, CatchAllService, ServicesPresent;
    var rules := existing.value;
    var all := Collect(rules);
    if all.None? { return None; }
    var c := all.value;
    CollectedDecides(c, rules);
    if c.catchAll.None? || Service(c.catchAll.value) != CatchAllService() { return None; }
    if !Names(c.named, ApiHost(), ApiService()) { return None; }
    if !Names(c.named, GabarotHost(), GabarotService()) { return None; }
    var result := Others(c.ordered);
    result := result + [PortalRule(NamedFields(c.named))];
    result := result + [c.catchAll.value];
    return Some(result);
  }

  /** The rule kept for this hostname has this service. */
  predicate Names(named: map<string, Rule>, host: string, service: string) {
    host in named && Service(named[host]) == service
  }

  /** The other fields of the rule kept for the portal. */
  function NamedFields(named: map<string, Rule>): map<string, string> {
    if PortalHost() in named then named[PortalHost()].other else map[]
  }

  /** What was collected tells whether the rules are accepted, and what they become. */
  lemma CollectedDecides(c: Collected, rules: seq<Rule>)
    requires Collects(c, rules) && ServicesPresent(rules)
    ensures Accepted(rules) <==>
      && c.catchAll.Some? && Service(c.catchAll.value) == CatchAllService()
      && Names(c.named, ApiHost(), ApiService()) && Names(c.named, GabarotHost(), GabarotService())
    ensures Accepted(rules) ==>
      Built(rules) == Others(c.ordered) + [PortalRule(NamedFields(c.named))] + [c.catchAll.value]
  {
    hide Host, Strip, DistinctHosts, Serves, Others, PortalFields, Ordered, CatchAlls, Indexes, Service;
    hide ApiHost, ApiService, GabarotHost, GabarotService, PortalHost, CatchAllService, ServicesPresent;
    NamedServes(c.named, c.ordered, ApiHost(), ApiService());
    NamedServes(c.named, c.ordered, GabarotHost(), GabarotService());
    NamedPortal(c.named, c.ordered);
  }

  /** The new rules, or None where the source raises. */
  function Rebuilt(existing: Option<seq<Rule>>): Option<seq<Rule>> {
    if existing.Some? && Accepted(existing.value) then Some(Built(existing.value)) else None
  }

  lemma NamedServes(named: map<string, Rule>, ordered: seq<Rule>, host: string, service: string)
    requires Indexes(named, ordered)
    ensures Serves(ordered, host, service) <==> Names(named, host, service)
  {
    hide Host;
    if host in named {
      var i :| 0 <= i < |ordered| && Host(ordered[i]) == host;
    }
  }

  lemma {:induction false} NamedPortal(named: map<string, Rule>, ordered: seq<Rule>)
    requires Indexes(named, ordered)
    ensures PortalFields(ordered) == NamedFields(named)
  {
    hide Host, PortalHost;
    PortalFieldsAt(ordered);
    if PortalHost() in named {
      var i :| 0 <= i < |ordered| && Host(ordered[i]) == PortalHost();
    }
  }

  lemma {:induction false} PortalFieldsAt(rules: seq<Rule>)
    ensures (exists i | 0 <= i < |rules| :: Host(rules[i]) == PortalHost() && PortalFields(rules) == rules[i].other)
      || ((forall i | 0 <= i < |rules| :: Host(rules[i]) != PortalHost()) && PortalFields(rules) == map[])
  {
    hide Host, PortalHost;
    if rules != [] {
      var front, last := rules[..|rules| - 1], rules[|rules| - 1];
      if Host(last) != PortalHost() {
        PortalFieldsAt(front);
        if exists i | 0 <= i < |front| :: Host(front[i]) == PortalHost() && PortalFields(front) == front[i].other {
          var i :| 0 <= i < |front| && Host(front[i]) == PortalHost() && PortalFields(front) == front[i].other;
          assert rules[i] == front[i];
        }
      } else {
        assert rules[|rules| - 1] == last;
      }
    }
  }

  // ----- applying it twice -----

  /** Every rule for the portal host has it without space around it. */
  predicate Trimmed(rules: seq<Rule>) {
    forall i | 0 <= i < |rules| :: Host(rules[i]) == PortalHost() ==> Plain(rules[i]) == PortalHost()
  }

  lemma PlainPortalIsHost(r: Rule)
    requires Plain(r) == PortalHost()
    ensures Host(r) == PortalHost()
  {
    PortalIsPlain(TextOf(r.hostname));
  }

  lemma PortalRuleHost(fields: map<string, string>)
    ensures Host(PortalRule(fields)) == PortalHost() && Plain(PortalRule(fields)) == PortalHost()
  {
    PortalLower();
    PlainPortalIsHost(PortalRule(fields));
  }

  lemma {:induction false} OthersMembers(rules: seq<Rule>, r: Rule)
    ensures r in Others(rules) <==> r in rules && Plain(r) != PortalHost()
  {
    hide Plain, PortalHost;
    if rules != [] {
      OthersMembers(rules[..|rules| - 1], r);
      assert rules == rules[..|rules| - 1] + [rules[|rules| - 1]];
    }
  }

  lemma {:induction false} OrderedMembers(rules: seq<Rule>, r: Rule)
    ensures r in Ordered(rules) <==> r in rules && Host(r) != ""
    ensures r in CatchAlls(rules) <==> r in rules && Host(r) == ""
  {
    hide Host;
    if rules != [] {
      OrderedMembers(rules[..|rules| - 1], r);
      assert rules == rules[..|rules| - 1] + [rules[|rules| - 1]];
    }
  }

  lemma {:induction false} OthersDistinct(rules: seq<Rule>)
    requires DistinctHosts(rules)
    ensures DistinctHosts(Others(rules))
  {
    hide Host, Plain, PortalHost;
    if rules != [] {
      var front, last := rules[..|rules| - 1], rules[|rules| - 1];
      OthersDistinct(front);
      var kept := Others(front);
      forall i | 0 <= i < |kept| ensures Host(kept[i]) != Host(last) {
        OthersMembers(front, kept[i]);
        var j :| 0 <= j < |front| && front[j] == kept[i];
        assert Host(rules[j]) != Host(rules[|rules| - 1]);
      }
    }
  }

  lemma {:induction false} OrderedDistinct(rules: seq<Rule>)
    requires forall i | 0 <= i < |rules| :: Host(rules[i]) != ""
    ensures Ordered(rules) == rules && CatchAlls(rules) == []
  {
    hide Host;
    if rules != [] {
      OrderedDistinct(rules[..|rules| - 1]);
      assert rules == rules[..|rules| - 1] + [rules[|rules| - 1]];
    }
  }

  lemma {:induction false} OthersTwice(rules: seq<Rule>)
    requires forall i | 0 <= i < |rules| :: Plain(rules[i]) != PortalHost()
    ensures Others(rules) == rules
  {
    hide Plain, PortalHost;
    if rules != [] {
      OthersTwice(rules[..|rules| - 1]);
      assert rules == rules[..|rules| - 1] + [rules[|rules| - 1]];
    }
  }

  /** The rules between: those that are neither for the portal nor the catch-all. */
  function Kept(rules: seq<Rule>): seq<Rule> { Others(Ordered(rules)) }

  lemma KeptMembers(rules: seq<Rule>, r: Rule)
    ensures r in Kept(rules) <==> r in rules && Host(r) != "" && Plain(r) != PortalHost()
  {
    OthersMembers(Ordered(rules), r);
    OrderedMembers(rules, r);
  }

  lemma CatchAllIs(rules: seq<Rule>)
    requires Accepted(rules)
    ensures var c := CatchAlls(rules)[0];
      CatchAlls(rules) == [c] && Host(c) == "" && Service(c) == CatchAllService() && c in rules
  {
    hide Host, Strip, DistinctHosts, Serves, ServicesPresent, CatchAllService;
    var c := CatchAlls(rules)[0];
    assert c in CatchAlls(rules);
    OrderedMembers(rules, c);
  }

  lemma OrderedSnoc(rules: seq<Rule>, r: Rule)
    ensures Ordered(rules + [r]) == if Host(r) != "" then Ordered(rules) + [r] else Ordered(rules)
    ensures CatchAlls(rules + [r]) == if Host(r) == "" then CatchAlls(rules) + [r] else CatchAlls(rules)
  {
    hide Host;
    assert (rules + [r])[..|rules|] == rules;
  }

  lemma PartsOf(kept: seq<Rule>, p: Rule, c: Rule)
    requires Host(p) != "" && Host(c) == "" && forall i | 0 <= i < |kept| :: Host(kept[i]) != ""
    ensures Ordered(kept + [p, c]) == kept + [p] && CatchAlls(kept + [p, c]) == [c]
  {
    hide Host, Ordered, CatchAlls;
    OrderedDistinct(kept);
    OrderedSnoc(kept, p);
    OrderedSnoc(kept + [p], c);
    assert kept + [p, c] == kept + [p] + [c];
  }

  lemma KeptHosts(rules: seq<Rule>)
    ensures forall i | 0 <= i < |Kept(rules)| :: Host(Kept(rules)[i]) != ""
  {
    hide Host, Kept, Plain, PortalHost;
    var kept := Kept(rules);
    forall i | 0 <= i < |kept| ensures Host(kept[i]) != "" {
      assert kept[i] in kept;
      KeptMembers(rules, kept[i]);
    }
  }

  function NewPortal(rules: seq<Rule>): Rule { PortalRule(PortalFields(Ordered(rules))) }

  /** The result taken apart again. */
  lemma BuiltParts(rules: seq<Rule>)
    requires Accepted(rules)
    ensures Built(rules) == Kept(rules) + [NewPortal(rules), CatchAlls(rules)[0]]
    ensures Ordered(Built(rules)) == Kept(rules) + [NewPortal(rules)]
    ensures CatchAlls(Built(rules)) == [CatchAlls(rules)[0]]
  {
    assert Built(rules) == Kept(rules) + [NewPortal(rules), CatchAlls(rules)[0]];
    CatchAllIs(rules);
    PortalRuleHost(PortalFields(Ordered(rules)));
    HostsNotEmpty();
    KeptHosts(rules);
    assert Host(NewPortal(rules)) == PortalHost();
    hide Host, PortalHost, Built, Ordered, CatchAlls, Kept, NewPortal, CatchAllService, Accepted;
    PartsOf(Kept(rules), NewPortal(rules), CatchAlls(rules)[0]);
  }

  lemma KeptIsStable(rules: seq<Rule>, p: Rule)
    requires Plain(p) == PortalHost() && Host(p) == PortalHost()
    ensures Others(Kept(rules) + [p]) == Kept(rules) && PortalFields(Kept(rules) + [p]) == p.other
  {
    hide Host, Plain, PortalHost;
    var kept := Kept(rules);
    forall i | 0 <= i < |kept| ensures Plain(kept[i]) != PortalHost() {
      assert kept[i] in kept;
      KeptMembers(rules, kept[i]);
    }
    OthersTwice(kept);
    assert (kept + [p])[..|kept|] == kept && (kept + [p])[|kept|] == p;
  }

  lemma KeptServes(rules: seq<Rule>, host: string, service: string, p: Rule)
    requires Serves(Ordered(rules), host, service) && host != PortalHost()
    ensures Serves(Kept(rules) + [p], host, service)
  {
    var all := Ordered(rules);
    var i :| 0 <= i < |all| && Host(all[i]) == host && Service(all[i]) == service;
    if Plain(all[i]) == PortalHost() { PlainPortalIsHost(all[i]); }
    hide Host, Plain, PortalHost, Service;
    OthersMembers(all, all[i]);
    var kept := Kept(rules);
    var j :| 0 <= j < |kept| && kept[j] == all[i];
    assert Host((kept + [p])[j]) == host;
  }

  lemma DistinctMore(kept: seq<Rule>, p: Rule)
    requires DistinctHosts(kept)
    ensures DistinctHosts(kept + [p]) <==> forall r | r in kept :: Host(r) != Host(p)
  {
    hide Host;
    var all := kept + [p];
    if r :| r in kept && Host(r) == Host(p) {
      var i :| 0 <= i < |kept| && kept[i] == r;
      assert all[i] == r && all[|kept|] == p;
    } else {
      forall i, j | 0 <= i < j < |all| ensures Host(all[i]) != Host(all[j]) {
        assert all[i] == kept[i] && all[i] in kept;
      }
    }
  }

  lemma KeptDistinct(rules: seq<Rule>, p: Rule)
    requires DistinctHosts(Ordered(rules)) && Host(p) == PortalHost()
    ensures DistinctHosts(Kept(rules) + [p]) <==> forall r | r in Kept(rules) :: Host(r) != PortalHost()
  {
    hide Host, PortalHost, Others, Ordered, DistinctHosts;
    OthersDistinct(Ordered(rules));
    DistinctMore(Kept(rules), p);
  }

  lemma TrimmedMeans(rules: seq<Rule>)
    ensures Trimmed(rules) <==> forall r | r in Kept(rules) :: Host(r) != PortalHost()
  {
    HostsNotEmpty();
    hide Host, Plain, PortalHost, Kept;
    forall r
      ensures r in Kept(rules) <==> r in rules && Host(r) != "" && Plain(r) != PortalHost()
    {
      KeptMembers(rules, r);
    }
    if !Trimmed(rules) {
      var i :| 0 <= i < |rules| && Host(rules[i]) == PortalHost() && Plain(rules[i]) != PortalHost();
      assert rules[i] in Kept(rules);
    }
  }

  lemma BuiltServices(rules: seq<Rule>)
    requires Accepted(rules)
    ensures ServicesPresent(Built(rules))
  {
    PortalServiceVisible();
    var y, kept, c := Built(rules), Kept(rules), CatchAlls(rules)[0];
    assert c in CatchAlls(rules);
    OrderedMembers(rules, c);
    hide Host, Strip, PortalService, Others, Ordered, CatchAlls;
    forall i | 0 <= i < |y| ensures Strip(Service(y[i])) != "" {
      if i < |kept| {
        assert y[i] in kept;
        KeptMembers(rules, y[i]);
      }
    }
  }

  lemma AcceptedAgain(rules: seq<Rule>)
    requires Accepted(rules)
    ensures Accepted(Built(rules)) <==> Trimmed(rules)
  {
    var p := NewPortal(rules);
    PortalRuleHost(PortalFields(Ordered(rules)));
    CatchAllIs(rules);
    BuiltParts(rules);
    KeptDistinct(rules, p);
    TrimmedMeans(rules);
    BuiltServices(rules);
    ServesAgain(rules, p);
    hide Host, Plain, PortalHost, Serves, DistinctHosts, ServicesPresent;
    hide Ordered, CatchAlls, PortalFields, PortalRule, Trimmed, Kept;
    hide ApiHost, ApiService, GabarotHost, GabarotService, CatchAllService, Built;
  }

  lemma ServesAgain(rules: seq<Rule>, p: Rule)
    requires Accepted(rules)
    ensures Serves(Kept(rules) + [p], ApiHost(), ApiService())
    ensures Serves(Kept(rules) + [p], GabarotHost(), GabarotService())
  {
    PortalDiffers();
    hide Serves, Host, Ordered, Kept, ApiHost;
    hide ApiService, GabarotHost, GabarotService, CatchAllService, ServicesPresent, DistinctHosts;
    KeptServes(rules, ApiHost(), ApiService(), p);
    KeptServes(rules, GabarotHost(), GabarotService(), p);
  }

  lemma BuiltAgain(rules: seq<Rule>)
    requires Accepted(rules) && Accepted(Built(rules))
    ensures Built(Built(rules)) == Built(rules)
  {
    var fields := PortalFields(Ordered(rules));
    var p := PortalRule(fields);
    PortalRuleHost(fields);
    BuiltParts(rules);
    KeptIsStable(rules, p);
    assert p.other == fields;
    hide Host, Plain, PortalHost, PortalRule, Ordered, CatchAlls, PortalFields, Accepted;
    assert Others(Ordered(Built(rules))) == Kept(rules);
    assert Built(rules) == Kept(rules) + [p, CatchAlls(rules)[0]];
  }

  /** Building again from the result changes nothing exactly when every portal hostname was
      trimmed; otherwise the result is refused. */
  lemma BuildingTwice(rules: seq<Rule>)
    requires Accepted(rules)
    ensures Trimmed(rules) ==> Rebuilt(Some(Built(rules))) == Some(Built(rules))
    ensures !Trimmed(rules) ==> Rebuilt(Some(Built(rules))) == None
  {
    AcceptedAgain(rules);
    hide Accepted, Built, Trimmed;
    if Trimmed(rules) { BuiltAgain(rules); }
  }

  /** The other rules keep their order, the portal comes after them and the one catch-all last. */
  lemma BuiltKeepsOrder(rules: seq<Rule>)
    requires Accepted(rules)
    ensures var y := Built(rules);
      && |y| >= 2 && y[..|y| - 2] == Kept(rules)
      && Host(y[|y| - 2]) == PortalHost() && Service(y[|y| - 2]) == PortalService()
    ensures var y := Built(rules);
      Host(y[|y| - 1]) == "" && Service(y[|y| - 1]) == CatchAllService() && y[|y| - 1] in rules
  {
    PortalRuleHost(PortalFields(Ordered(rules)));
    assert Host(NewPortal(rules)) == PortalHost() && Service(NewPortal(rules)) == PortalService();
    CatchAllIs(rules);
    BuiltParts(rules);
    hide Host, Service, PortalHost, PortalService, CatchAllService;
    hide Ordered, CatchAlls, Kept, Built, NewPortal, Accepted;
  }

  /** A rule for the portal with a space before its hostname. */
  function SpacedPortal(): Rule { Rule(Some(" " + PortalHost()), Some(PortalService()), map[]) }

  lemma SpacedPortalHost()
    ensures Host(SpacedPortal()) == PortalHost() && Plain(SpacedPortal()) != PortalHost()
    ensures Strip(Service(SpacedPortal())) != ""
  {
    hide PortalHost, PortalService, Lower;
    var t := " " + PortalHost();
    PortalLower();
    PortalIsPlain(PortalHost());
    PortalServiceVisible();
    assert t[1..] == PortalHost();
    assert Strip(t) == Strip(t[1..]);
    assert |Lower(t)| == |PortalHost()| + 1;
  }

  /** Such rules do occur: any accepted configuration without a portal rule stays accepted with
      this one added, and is then not trimmed, so applying the script to it twice fails. */
  lemma UntrimmedIsAccepted(rules: seq<Rule>)
    requires Accepted(rules) && forall i | 0 <= i < |rules| :: Host(rules[i]) != PortalHost()
    ensures Accepted(rules + [SpacedPortal()]) && !Trimmed(rules + [SpacedPortal()])
    ensures Rebuilt(Some(Built(rules + [SpacedPortal()]))) == None
  {
    hide Host, Plain, PortalHost, Serves, DistinctHosts;
    hide ServicesPresent, Ordered, CatchAlls, SpacedPortal, Strip, Service;
    hide ApiHost, ApiService, GabarotHost, GabarotService, CatchAllService, Built;
    var r, more := SpacedPortal(), rules + [SpacedPortal()];
    SpacedPortalHost();
    HostsNotEmpty();
    OrderedSnoc(rules, r);
    FreshHostDistinct(rules, r);
    ServesMore(Ordered(rules), ApiHost(), ApiService(), r);
    ServesMore(Ordered(rules), GabarotHost(), GabarotService(), r);
    ServicesMore(rules, r);
    assert more[|rules|] == r;
    BuildingTwice(more);
  }

  lemma ServicesMore(rules: seq<Rule>, r: Rule)
    requires ServicesPresent(rules) && Strip(Service(r)) != ""
    ensures ServicesPresent(rules + [r])
  {
    hide Strip, Service;
    var more := rules + [r];
    forall i | 0 <= i < |more| ensures Strip(Service(more[i])) != "" {
      if i < |rules| { assert more[i] == rules[i]; }
    }
  }

  lemma ServesMore(rules: seq<Rule>, host: string, service: string, r: Rule)
    requires Serves(rules, host, service)
    ensures Serves(rules + [r], host, service)
  {
    hide Host;
    var i :| 0 <= i < |rules| && Host(rules[i]) == host && Service(rules[i]) == service;
    assert (rules + [r])[i] == rules[i];
  }

  lemma FreshHostDistinct(rules: seq<Rule>, r: Rule)
    requires DistinctHosts(Ordered(rules)) && forall i | 0 <= i < |rules| :: Host(rules[i]) != Host(r)
    ensures DistinctHosts(Ordered(rules) + [r])
  {
    hide Host, Ordered;
    var all := Ordered(rules);
    forall i | 0 <= i < |all| ensures Host(all[i]) != Host(r) {
      assert all[i] in all;
      OrderedMembers(rules, all[i]);
      var j :| 0 <= j < |rules| && rules[j] == all[i];
    }
  }

  /** A rule with nothing but host and service. */
  function PlainRule(host: string, service: string): Rule { Rule(Some(host), Some(service), map[]) }

  function Smallest(): seq<Rule> {
    [PlainRule(ApiHost(), ApiService()), PlainRule(GabarotHost(), GabarotService()),
     Rule(None, Some(CatchAllService()), map[])]
  }

  lemma VisibleEnds(s: string)
    requires s != "" && !IsSpace(s[0]) && !IsSpace(s[|s| - 1])
    ensures Strip(s) == s
  {
  }

  lemma ApiPlain()
    ensures Lower(Strip(ApiHost())) == ApiHost() && Strip(ApiService()) == ApiService() != ""
  {
    hide Strip, Lower;
    VisibleEnds(ApiHost());
    VisibleEnds(ApiService());
    LowerStaysLower(ApiHost());
  }

  lemma GabarotPlain()
    ensures Lower(Strip(GabarotHost())) == GabarotHost() && Strip(GabarotService()) == GabarotService() != ""
  {
    hide Strip, Lower;
    VisibleEnds(GabarotHost());
    VisibleEnds(GabarotService());
    LowerStaysLower(GabarotHost());
  }

  lemma CatchAllPlain()
    ensures Strip(CatchAllService()) == CatchAllService() != "" && Lower(Strip("")) == ""
  {
    VisibleEnds(CatchAllService());
    assert Strip("") == "";
  }

  lemma HostsDiffer()
    ensures ApiHost() != GabarotHost()
  {
    assert |ApiHost()| != |GabarotHost()|;
  }

  lemma SmallestHosts()
    ensures Host(Smallest()[0]) == ApiHost() && Host(Smallest()[1]) == GabarotHost() && Host(Smallest()[2]) == ""
  {
    hide ApiHost, ApiService, GabarotHost, GabarotService, CatchAllService, Lower, Strip;
    ApiPlain();
    GabarotPlain();
    CatchAllPlain();
  }

  lemma SmallestParts()
    ensures var a, g, c := Smallest()[0], Smallest()[1], Smallest()[2];
      && Host(a) == ApiHost() && Host(g) == GabarotHost() && Host(c) == ""
      && Ordered(Smallest()) == [a, g] && CatchAlls(Smallest()) == [c] && Smallest() == [a, g, c]
  {
    hide ApiHost, ApiService, GabarotHost, GabarotService, CatchAllService;
    hide PortalHost, Host, Ordered, CatchAlls;
    SmallestHosts();
    HostsNotEmpty();
    Empty();
    var a, g, c := Smallest()[0], Smallest()[1], Smallest()[2];
    OrderedSnoc([], a);
    OrderedSnoc([a], g);
    OrderedSnoc([a, g], c);
    assert [] + [a] == [a] && [a] + [g] == [a, g] && [a, g] + [c] == Smallest();
  }

  /** The two required rules and the catch-all are accepted, and hold no rule for the portal. */
  lemma SmallestIsAccepted()
    ensures Accepted(Smallest()) && forall i | 0 <= i < |Smallest()| :: Host(Smallest()[i]) != PortalHost()
  {
    hide ApiHost, ApiService, GabarotHost, GabarotService, CatchAllService;
    hide PortalHost, Lower, Strip, Ordered, CatchAlls, Host;
    SmallestParts();
    ApiPlain();
    GabarotPlain();
    CatchAllPlain();
    HostsDiffer();
    HostsNotEmpty();
    PortalDiffers();
    assert Ordered(Smallest())[0] == Smallest()[0] && Ordered(Smallest())[1] == Smallest()[1];
  }
}
