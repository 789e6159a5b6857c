/** The tunnel rules, with every name written out and on the positions of the list. */
module IngressClaims {
  import opened Prelude
  import opened PortalIngress

  // ----- names -----

  /** What Python's str.isspace holds of. */
  predicate Space(c: char) {
    var n := c as int;
    || 9 <= n <= 13 || 28 <= n <= 32 || n == 133 || n == 160 || n == 5760 || 8192 <= n <= 8202
    || n == 8232 || n == 8233 || n == 8239 || n == 8287 || n == 12288
  }

  predicate Blank(s: string) { forall k | 0 <= k < |s| :: Space(s[k]) }

  predicate Tight(s: string) { s == "" || (!Space(s[0]) && !Space(s[|s| - 1])) }

  /** The small letter of an ASCII capital, and otherwise the character itself. */
  predicate Lowered(c: char, d: char) { d as int == c as int + if 65 <= c as int <= 90 then 32 else 0 }

  predicate InSmall(s: string, t: string) { |s| == |t| && forall k | 0 <= k < |s| :: Lowered(s[k], t[k]) }

  /** The name is the text without the blanks around it, in small letters. */
  ghost predicate NameIn(text: string, name: string) {
    exists before, middle, after ::
      text == before + middle + after && Blank(before) && Tight(middle) && Blank(after) && InSmall(middle, name)
  }

  lemma LowerIs(s: string)
    ensures InSmall(s, Lower(s))
  {
    forall k | 0 <= k < |s| ensures Lowered(s[k], Lower(s)[k]) { assert Lower(s)[k] == LowerChar(s[k]); }
  }

  lemma SpaceIs(c: char)
    ensures IsSpace(c) <==> Space(c)
  {
  }

  lemma BlankFront(c: char, b: string, m: string, a: string)
    requires Space(c) && Blank(b)
    ensures Blank([c] + b) && [c] + (b + m + a) == [c] + b + m + a
  {
  }

  lemma BlankBack(c: char, b: string, m: string, a: string)
    requires Space(c) && Blank(a)
    ensures Blank(a + [c]) && b + m + a + [c] == b + m + (a + [c])
  {
  }

  lemma {:induction false} StripIs(s: string) returns (before: string, after: string)
    ensures s == before + Strip(s) + after && Blank(before) && Tight(Strip(s)) && Blank(after)
  {
    hide Blank, IsSpace, Space;
    assert Blank("") by { NothingBlank(); }
    if s == "" { return "", ""; }
    var n := |s| - 1;
    SpaceIs(s[0]);
    SpaceIs(s[n]);
    if IsSpace(s[0]) {
      before, after := StripIs(s[1..]);
      BlankFront(s[0], before, Strip(s), after);
      assert s == [s[0]] + s[1..];
      before := [s[0]] + before;
    } else if IsSpace(s[n]) {
      before, after := StripIs(s[..n]);
      BlankBack(s[n], before, Strip(s), after);
      assert s == s[..n] + [s[n]];
      after := after + [s[n]];
    } else {
      before, after := "", "";
    }
  }

  lemma NothingBlank()
    ensures Blank("")
  {
  }

  lemma HostIs(r: Rule)
    ensures NameIn(match r.hostname case None => "" case Some(s) => s, Host(r))
  {
    var text := match r.hostname case None => "" case Some(s) => s;
    var before, after := StripIs(text);
    LowerIs(Strip(text));
    hide Strip, Lower, Blank, Tight, InSmall;
  }

  lemma InSmallIs(s: string, t: string)
    ensures Lower(s) == t <==> InSmall(s, t)
  {
    LowerIs(s);
    hide Lower;
    if InSmall(s, t) { assert forall k | 0 <= k < |s| :: Lowered(s[k], Lower(s)[k]) && Lowered(s[k], t[k]); }
  }

  lemma VisibleIs(s: string)
    ensures Strip(s) != "" <==> !Blank(s)
  {
    var before, after := StripIs(s);
    if Strip(s) != "" {
      assert s[|before|] == Strip(s)[0];
    }
  }

  // ----- the rules -----

  predicate ServedBy(r: Rule, service: string) { (match r.service case None => "" case Some(s) => s) == service }

  predicate OnlyCatchAll(rules: seq<Rule>, i: int) {
    && 0 <= i < |rules| && Host(rules[i]) == "" && ServedBy(rules[i], "http_status:404")
    && forall j | 0 <= j < |rules| && j != i :: Host(rules[j]) != ""
  }

  predicate EachServed(rules: seq<Rule>) {
    forall i | 0 <= i < |rules| :: !Blank(match rules[i].service case None => "" case Some(s) => s)
  }

  predicate OwnNames(rules: seq<Rule>) {
    forall i, j | 0 <= i < j < |rules| && Host(rules[i]) != "" :: Host(rules[i]) != Host(rules[j])
  }

  predicate SomeServe(rules: seq<Rule>, name: string, service: string) {
    exists i | 0 <= i < |rules| :: Host(rules[i]) == name && ServedBy(rules[i], service)
  }

  /** Every rule has a service, named rules have different names, the one without a name is the
      catch-all, and the two production names are served as before. */
  ghost predicate RulesInOrder(rules: seq<Rule>) {
    && EachServed(rules) && OwnNames(rules) && (exists i :: OnlyCatchAll(rules, i))
    && SomeServe(rules, "api.vip-e.net", "http://nginx:8080")
    && SomeServe(rules, "gabarot.vip-e.net", "http://nginx:8081")
  }

  /** No named rule has the name of this one. */
  predicate NewName(rules: seq<Rule>, r: Rule) {
    forall i | 0 <= i < |rules| && Host(rules[i]) != "" :: Host(rules[i]) != Host(r)
  }

  lemma OwnNamesMore(rules: seq<Rule>)
    requires rules != []
    ensures OwnNames(rules) <==>
      OwnNames(rules[..|rules| - 1]) && NewName(rules[..|rules| - 1], rules[|rules| - 1])
    ensures Host(rules[|rules| - 1]) == "" ==> NewName(rules[..|rules| - 1], rules[|rules| - 1])
  {
    hide Host;
    var front := rules[..|rules| - 1];
    assert forall i | 0 <= i < |front| :: front[i] == rules[i];
  }

  lemma LastOrdered(rules: seq<Rule>)
    requires rules != []
    ensures var front, last := rules[..|rules| - 1], rules[|rules| - 1];
      Ordered(rules) == if Host(last) != "" then Ordered(front) + [last] else Ordered(front)
  {
    hide Host;
  }

  lemma {:induction false} DistinctIs(rules: seq<Rule>)
    ensures DistinctHosts(Ordered(rules)) <==> OwnNames(rules)
  {
    if rules != [] {
      hide Host, OwnNames, NewName, DistinctHosts;
      var front, last := rules[..|rules| - 1], rules[|rules| - 1];
      DistinctIs(front);
      OwnNamesMore(rules);
      LastOrdered(rules);
      hide Ordered;
      if Host(last) != "" { DistinctMoreIff(front, last); }
    }
  }

  lemma DistinctMoreIff(front: seq<Rule>, last: Rule)
    ensures DistinctHosts(Ordered(front) + [last]) <==> DistinctHosts(Ordered(front)) && NewName(front, last)
  {
    var named := Ordered(front);
    forall r ensures r in named <==> r in front && Host(r) != "" { OrderedMembers(front, r); }
    hide Host, Ordered;
    if DistinctHosts(named + [last]) {
      forall i, j | 0 <= i < j < |named| ensures Host(named[i]) != Host(named[j]) {
        assert (named + [last])[i] == named[i] && (named + [last])[j] == named[j];
      }
      forall i | 0 <= i < |front| && Host(front[i]) != "" ensures Host(front[i]) != Host(last) {
        assert front[i] in named;
        var k :| 0 <= k < |named| && named[k] == front[i];
        assert (named + [last])[k] == named[k] && (named + [last])[|named|] == last;
      }
    }
    if NewName(front, last) {
      forall k | 0 <= k < |named| ensures Host(named[k]) != Host(last) {
        assert named[k] in named;
        var i :| 0 <= i < |front| && front[i] == named[k];
      }
    }
  }

  lemma {:induction false} NamelessIs(rules: seq<Rule>)
    ensures CatchAlls(rules) == [] <==> forall i | 0 <= i < |rules| :: Host(rules[i]) != ""
  {
    hide Host;
    if rules != [] { NamelessIs(rules[..|rules| - 1]); }
  }

  /** Rule i is the only one without a name. */
  predicate Nameless(rules: seq<Rule>, i: int) {
    0 <= i < |rules| && Host(rules[i]) == "" && forall j | 0 <= j < |rules| && j != i :: Host(rules[j]) != ""
  }

  lemma {:induction false} OneNameless(rules: seq<Rule>, i: int)
    ensures Nameless(rules, i) ==> CatchAlls(rules) == [rules[i]]
  {
    hide Host;
    if rules != [] && Nameless(rules, i) {
      var front, n := rules[..|rules| - 1], |rules| - 1;
      if i == n {
        NamelessIs(front);
      } else {
        assert Nameless(front, i);
        OneNameless(front, i);
      }
    }
  }

  lemma {:induction false} NamelessAt(rules: seq<Rule>) returns (i: int)
    requires |CatchAlls(rules)| == 1
    ensures Nameless(rules, i) && CatchAlls(rules) == [rules[i]]
  {
    hide Host;
    var front, n := rules[..|rules| - 1], |rules| - 1;
    if Host(rules[n]) == "" {
      i := n;
      NamelessIs(front);
    } else {
      assert CatchAlls(rules) == CatchAlls(front);
      i := NamelessAt(front);
    }
  }

  lemma CatchAllIff(rules: seq<Rule>)
    ensures |CatchAlls(rules)| == 1 && ServedBy(CatchAlls(rules)[0], "http_status:404") <==>
      exists i :: OnlyCatchAll(rules, i)
  {
    hide Host, ServedBy, CatchAlls;
    if |CatchAlls(rules)| == 1 {
      var i := NamelessAt(rules);
      assert ServedBy(CatchAlls(rules)[0], "http_status:404") ==> OnlyCatchAll(rules, i);
    }
    if i :| OnlyCatchAll(rules, i) {
      assert Nameless(rules, i);
      OneNameless(rules, i);
    }
  }

  lemma ServesIs(rules: seq<Rule>, host: string, service: string)
    requires host != ""
    ensures Serves(Ordered(rules), host, service) <==> SomeServe(rules, host, service)
  {
    forall r { OrderedMembers(rules, r); }
    hide Host, Ordered;
    if Serves(Ordered(rules), host, service) {
      var k :| 0 <= k < |Ordered(rules)| && Host(Ordered(rules)[k]) == host && Service(Ordered(rules)[k]) == service;
      assert Ordered(rules)[k] in Ordered(rules);
      var i :| 0 <= i < |rules| && rules[i] == Ordered(rules)[k];
      assert ServedBy(rules[i], service);
    }
    if i :| 0 <= i < |rules| && Host(rules[i]) == host && ServedBy(rules[i], service) {
      assert rules[i] in Ordered(rules);
      var k :| 0 <= k < |Ordered(rules)| && Ordered(rules)[k] == rules[i];
      assert Service(Ordered(rules)[k]) == service;
    }
  }

  lemma VisibleServices(rules: seq<Rule>)
    ensures ServicesPresent(rules) <==> EachServed(rules)
  {
    forall i | 0 <= i < |rules| { VisibleIs(Service(rules[i])); }
    hide Blank, Strip;
  }

  lemma NamesAre()
    ensures ApiHost() == "api.vip-e.net" && ApiService() == "http://nginx:8080"
    ensures GabarotHost() == "gabarot.vip-e.net" && GabarotService() == "http://nginx:8081"
    ensures PortalHost() == "ai.vip-e.net" && PortalService() == "http://nginx:8082"
    ensures CatchAllService() == "http_status:404"
  {
  }

  /** Exactly which rule lists are accepted. */
  lemma AcceptedIff(rules: seq<Rule>)
    ensures Accepted(rules) <==> RulesInOrder(rules)
  {
    NamesAre();
    HostsNotEmpty();
    hide ApiHost, ApiService, GabarotHost, GabarotService, CatchAllService, PortalHost, PortalService;
    hide Host, Ordered, CatchAlls, DistinctHosts, Serves, OnlyCatchAll, ServicesPresent;
    hide EachServed, OwnNames, SomeServe;
    VisibleServices(rules);
    DistinctIs(rules);
    CatchAllIff(rules);
    ServesIs(rules, ApiHost(), ApiService());
    ServesIs(rules, GabarotHost(), GabarotService());
  }

  // ----- what is built -----

  /** Rules with a name that is not, as it is written, the portal's. */
  predicate Stays(r: Rule) {
    Host(r) != "" && !InSmall(match r.hostname case None => "" case Some(s) => s, "ai.vip-e.net")
  }

  /** The chosen rules are those at these ascending positions. */
  predicate Picks(rules: seq<Rule>, at: seq<nat>, chosen: seq<Rule>) {
    && |at| == |chosen| && (forall k | 0 <= k < |at| :: at[k] < |rules| && chosen[k] == rules[at[k]])
    && (forall k, l | 0 <= k < l < |at| :: at[k] < at[l])
  }

  predicate PicksAll(rules: seq<Rule>, at: seq<nat>) {
    forall i | 0 <= i < |rules| :: i in at <==> Stays(rules[i])
  }

  lemma PickMore(front: seq<Rule>, last: Rule, at: seq<nat>, chosen: seq<Rule>)
    requires Picks(front, at, chosen)
    ensures Picks(front + [last], at, chosen) && Picks(front + [last], at + [|front|], chosen + [last])
  {
  }

  lemma AllPicked(front: seq<Rule>, last: Rule, at: seq<nat>)
    requires PicksAll(front, at) && forall k | 0 <= k < |at| :: at[k] < |front|
    ensures PicksAll(front + [last], if Stays(last) then at + [|front|] else at)
  {
    hide Stays;
    var rules, more := front + [last], if Stays(last) then at + [|front|] else at;
    assert |front| !in at;
    forall i | 0 <= i < |rules| ensures i in more <==> Stays(rules[i]) {
      if i < |front| { assert rules[i] == front[i] && (i in more <==> i in at); }
    }
  }

  lemma KeptMore(front: seq<Rule>, last: Rule)
    ensures Kept(front + [last]) == Kept(front) + if Stays(last) then [last] else []
  {
    assert PortalHost() == "ai.vip-e.net";
    InSmallIs(TextOf(last.hostname), "ai.vip-e.net");
    OrderedSnoc(front, last);
    var named := Ordered(front);
    hide Ordered, Host, InSmall, Lower, PortalHost;
    if Host(last) != "" { assert (named + [last])[..|named|] == named; }
  }

  predicate Follows(rules: seq<Rule>, at: seq<nat>, chosen: seq<Rule>) {
    Picks(rules, at, chosen) && PicksAll(rules, at)
  }

  lemma FollowsMore(front: seq<Rule>, last: Rule, at: seq<nat>, chosen: seq<Rule>)
    requires Follows(front, at, chosen)
    ensures Stays(last) ==> Follows(front + [last], at + [|front|], chosen + [last])
    ensures !Stays(last) ==> Follows(front + [last], at, chosen + [])
  {
    PickMore(front, last, at, chosen);
    AllPicked(front, last, at);
    hide Picks, PicksAll, Stays;
    assert chosen + [] == chosen;
  }

  lemma {:induction false} KeptAt(rules: seq<Rule>) returns (at: seq<nat>)
    ensures Follows(rules, at, Kept(rules))
  {
    at := [];
    if rules != [] {
      hide Kept, Stays, Follows;
      var front, last := rules[..|rules| - 1], rules[|rules| - 1];
      assert rules == front + [last];
      at := KeptAt(front);
      KeptMore(front, last);
      FollowsMore(front, last, at, Kept(front));
      if Stays(last) { at := at + [|front|]; }
    }
  }

  /** The fields of the rule of this name, or none without such a rule. */
  predicate FieldsOf(rules: seq<Rule>, name: string, fields: map<string, string>) {
    && (forall i | 0 <= i < |rules| && Host(rules[i]) == name :: fields == rules[i].other)
    && ((forall i | 0 <= i < |rules| :: Host(rules[i]) != name) ==> fields == map[])
  }

  lemma FieldsAre(rules: seq<Rule>)
    requires RulesInOrder(rules)
    ensures FieldsOf(rules, PortalHost(), PortalFields(Ordered(rules)))
  {
    var named := Ordered(rules);
    HostsNotEmpty();
    hide Host, PortalHost, Ordered, PortalFields, Blank, EachServed, SomeServe, OnlyCatchAll;
    PortalFieldsAt(named);
    forall i | 0 <= i < |rules| && Host(rules[i]) == PortalHost()
      ensures rules[i] in named && PortalFields(named) == rules[i].other
    {
      OrderedMembers(rules, rules[i]);
      PortalIsIn(rules, i);
    }
    forall k | 0 <= k < |named| ensures exists i | 0 <= i < |rules| :: rules[i] == named[k] {
      OrderedMembers(rules, named[k]);
    }
  }

  lemma PortalIsIn(rules: seq<Rule>, i: nat)
    requires OwnNames(rules) && i < |rules| && Host(rules[i]) == PortalHost() != ""
    ensures PortalFields(Ordered(rules)) == rules[i].other
  {
    var named := Ordered(rules);
    hide Host, PortalHost, Ordered, PortalFields;
    OrderedMembers(rules, rules[i]);
    PortalFieldsAt(named);
    var k :| 0 <= k < |named| && Host(named[k]) == PortalHost() && PortalFields(named) == named[k].other;
    OrderedMembers(rules, named[k]);
    var j :| 0 <= j < |rules| && rules[j] == named[k];
    assert j == i;
  }

  /** Every rule that stays, in its order; then the portal's rule, with what else an older rule for
      it said; then the catch-all, as it was. */
  lemma BuiltIs(rules: seq<Rule>) returns (at: seq<nat>, catchAll: nat, fields: map<string, string>)
    requires Accepted(rules)
    ensures Follows(rules, at, Kept(rules)) && OnlyCatchAll(rules, catchAll)
    ensures FieldsOf(rules, "ai.vip-e.net", fields)
    ensures Built(rules) ==
      Kept(rules) + [Rule(Some("ai.vip-e.net"), Some("http://nginx:8082"), fields), rules[catchAll]]
  {
    NamesAre();
    hide ApiHost, ApiService, GabarotHost, GabarotService, CatchAllService, PortalHost, PortalService;
    hide Host, Kept, Ordered, CatchAlls, Accepted, PortalFields, Follows, FieldsOf, EachServed, OwnNames, SomeServe;
    hide Built, OnlyCatchAll;
    at := KeptAt(rules);
    AcceptedIff(rules);
    FieldsAre(rules);
    fields := PortalFields(Ordered(rules));
    catchAll := CatchAllAt(rules);
    BuiltParts(rules);
  }

  lemma CatchAllAt(rules: seq<Rule>) returns (i: nat)
    requires RulesInOrder(rules)
    ensures OnlyCatchAll(rules, i) && CatchAlls(rules) == [rules[i]]
  {
    hide Host, CatchAlls, EachServed, OwnNames, SomeServe;
    var c :| OnlyCatchAll(rules, c);
    i := c;
    assert Nameless(rules, c);
    OneNameless(rules, c);
  }
}
