/** The state of the portal's DNS records, with every name written out and on the positions of the
    list. */
module ActivationClaims {
  import opened Prelude
  import opened PortalIngress
  import opened IngressClaims
  import opened PortalActivation

  predicate Raised(c: char, d: char) { d as int == c as int - if 97 <= c as int <= 122 then 32 else 0 }

  /** t is s in capitals. */
  predicate InLarge(s: string, t: string) { |s| == |t| && forall k | 0 <= k < |s| :: Raised(s[k], t[k]) }

  predicate Dots(s: string) { forall k | 0 <= k < |s| :: s[k] == '.' }

  predicate ForThePortal(r: Dns) { InSmall(r.name, "ai.vip-e.net") }

  /** Record i is the only one for the portal. */
  predicate OnlyRecord(records: seq<Dns>, i: int) {
    && 0 <= i < |records| && ForThePortal(records[i])
    && forall j | 0 <= j < |records| && j != i :: !ForThePortal(records[j])
  }

  predicate Usable(r: Dns) { InLarge(r.kind, "CNAME") && LowerHex(r.id, 32) }

  /** A proxied record whose content is the tunnel's address, in small letters, up to dots at the end. */
  ghost predicate Correct(r: Dns, tunnel: string) {
    r.proxied && exists dots :: Dots(dots) && InSmall(r.content, tunnel + ".cfargotunnel.com" + dots)
  }

  lemma UpperHead(s: string)
    requires s != ""
    ensures |Upper(s)| > 0 && Raised(s[0], Upper(s)[0]) && Upper(s)[1..] == Upper(s[1..])
  {
  }

  lemma OneRaised(c: char, d: char, e: char)
    requires Raised(c, d)
    ensures Raised(c, e) <==> d == e
  {
  }

  lemma {:induction false} InLargeIs(s: string, t: string)
    ensures Upper(s) == t <==> InLarge(s, t)
  {
    if s != "" && t != "" {
      InLargeIs(s[1..], t[1..]);
      UpperHead(s);
      OneRaised(s[0], Upper(s)[0], t[0]);
      LargeHeads(s, t);
      hide Upper, Raised, InLarge;
      assert t == [t[0]] + t[1..] && Upper(s) == [Upper(s)[0]] + Upper(s)[1..];
    }
  }

  lemma LargeHeads(s: string, t: string)
    requires s != "" && t != ""
    ensures InLarge(s, t) <==> Raised(s[0], t[0]) && InLarge(s[1..], t[1..])
  {
    hide Raised;
    if Raised(s[0], t[0]) && InLarge(s[1..], t[1..]) {
      forall k | 0 <= k < |s| ensures Raised(s[k], t[k]) {
        if k > 0 { assert Raised(s[1..][k - 1], t[1..][k - 1]); }
      }
    }
    if InLarge(s, t) {
      forall k | 0 <= k < |s| - 1 ensures Raised(s[1..][k], t[1..][k]) { assert Raised(s[k + 1], t[k + 1]); }
    }
  }

  lemma {:induction false} DotsStripped(s: string) returns (dots: string)
    ensures s == StripDots(s) + dots && Dots(dots)
  {
    dots := "";
    if s != "" && s[|s| - 1] == '.' {
      dots := DotsStripped(s[..|s| - 1]);
      dots := dots + ".";
    }
  }

  lemma {:induction false} StripsDots(t: string, dots: string)
    requires Dots(dots) && t != "" && t[|t| - 1] != '.'
    ensures StripDots(t + dots) == t
  {
    if dots == "" {
      assert t + dots == t;
    } else {
      var n := |dots| - 1;
      assert (t + dots)[..|t| + n] == t + dots[..n];
      StripsDots(t, dots[..n]);
    }
  }

  lemma CorrectIs(r: Dns, tunnel: string)
    ensures PointsTo(r, tunnel) <==> Correct(r, tunnel)
  {
    var target := tunnel + ".cfargotunnel.com";
    assert Target(tunnel) == target && target[|target| - 1] == 'm';
    hide Target;
    if PointsTo(r, tunnel) {
      var dots := DotsStripped(Lower(r.content));
      InSmallIs(r.content, target + dots);
    }
    if Correct(r, tunnel) {
      var dots :| Dots(dots) && InSmall(r.content, tunnel + ".cfargotunnel.com" + dots);
      InSmallIs(r.content, target + dots);
      StripsDots(target, dots);
    }
  }

  lemma HexIs(s: string)
    ensures IsId(s) <==> LowerHex(s, 32)
  {
    forall i | 0 <= i < |s| ensures ('0' <= s[i] <= '9' || 'a' <= s[i] <= 'f') <==> s[i] in "0123456789abcdef" {
      HexDigitIs(s[i]);
    }
  }

  // ----- the matching records -----

  lemma ForPortalIs(r: Dns)
    ensures ForPortal(r) <==> ForThePortal(r)
  {
    assert PortalHost() == "ai.vip-e.net";
    InSmallIs(r.name, "ai.vip-e.net");
  }

  predicate NoneFor(records: seq<Dns>) { forall i | 0 <= i < |records| :: !ForThePortal(records[i]) }

  lemma {:induction false} NoMatch(records: seq<Dns>)
    ensures Matching(records) == [] <==> NoneFor(records)
  {
    if records != [] {
      ForPortalIs(records[0]);
      hide ForPortal, ForThePortal;
      NoMatch(records[1..]);
      NoneInRest(records);
    }
  }

  lemma NoneInRest(records: seq<Dns>)
    requires records != []
    ensures NoneFor(records) <==> !ForThePortal(records[0]) && NoneFor(records[1..])
  {
    hide ForThePortal;
    if !ForThePortal(records[0]) && NoneFor(records[1..]) {
      forall i | 0 <= i < |records| ensures !ForThePortal(records[i]) {
        if i > 0 { assert records[1..][i - 1] == records[i]; }
      }
    }
  }

  lemma {:induction false} OneMatch(records: seq<Dns>, i: int)
    requires OnlyRecord(records, i)
    ensures Matching(records) == [records[i]]
  {
    ForPortalIs(records[0]);
    hide ForPortal, ForThePortal;
    if i == 0 {
      forall j | 0 <= j < |records| - 1 ensures !ForThePortal(records[1..][j]) {
        assert records[1..][j] == records[j + 1];
      }
      NoMatch(records[1..]);
    } else {
      assert !ForThePortal(records[0]);
      forall j | 0 <= j < |records| - 1 && j != i - 1 ensures !ForThePortal(records[1..][j]) {
        assert records[1..][j] == records[j + 1];
      }
      OneMatch(records[1..], i - 1);
    }
  }

  lemma {:induction false} MatchAt(records: seq<Dns>) returns (i: int)
    requires |Matching(records)| == 1
    ensures OnlyRecord(records, i) && Matching(records) == [records[i]]
  {
    ForPortalIs(records[0]);
    hide ForPortal, ForThePortal;
    if ForThePortal(records[0]) {
      i := 0;
      NoMatch(records[1..]);
      forall j | 0 < j < |records| ensures !ForThePortal(records[j]) { assert records[1..][j - 1] == records[j]; }
    } else {
      assert Matching(records) == Matching(records[1..]);
      i := MatchAt(records[1..]);
      forall j | 0 <= j < |records| && j != i + 1 ensures !ForThePortal(records[j]) {
        if j > 0 { assert records[1..][j - 1] == records[j]; }
      }
      i := i + 1;
    }
  }

  lemma UsableIs(r: Dns)
    ensures Upper(r.kind) == Cname() && IsId(r.id) <==> Usable(r)
  {
    assert Cname() == "CNAME";
    InLargeIs(r.kind, "CNAME");
    HexIs(r.id);
  }

  /** Missing, ready or to be updated, exactly when the records say so; in every other case they
      conflict. */
  lemma StateIff(records: seq<Dns>, tunnel: string)
    ensures StateOf(records, tunnel) == Missing <==> NoneFor(records)
    ensures StateOf(records, tunnel) == Ready <==>
      exists i :: OnlyRecord(records, i) && Usable(records[i]) && Correct(records[i], tunnel)
    ensures forall id :: StateOf(records, tunnel) == Update(id) <==>
      exists i :: OnlyRecord(records, i) && Usable(records[i]) && !Correct(records[i], tunnel) && records[i].id == id
  {
    NoMatch(records);
    forall i | OnlyRecord(records, i) ensures Matching(records) == [records[i]] { OneMatch(records, i); }
    if |Matching(records)| == 1 {
      var i := MatchAt(records);
      UsableIs(records[i]);
      CorrectIs(records[i], tunnel);
    }
    hide OnlyRecord, Usable, Correct, Matching, Upper, Cname, IsId, PointsTo, NoneFor;
    forall i | OnlyRecord(records, i) ensures |Matching(records)| == 1 { }
  }
}
