/** One run of scripts/phase29b/activate_portal_hostname.py against a zone whose requests may fail
    at any point. */
module PortalActivation {
  import opened Prelude
  import opened PortalIngress

  datatype Dns = Dns(name: string, kind: string, id: string, content: string, proxied: bool)

  datatype DnsState = Missing | Ready | Update(id: string) | Conflict

  function Cname(): string { "CNAME" }

  function Suffix(): string { ".cfargotunnel.com" }

  function Target(tunnel: string): string { tunnel + Suffix() }

  function Upper(s: string): string {
    if s == "" then "" else [if 'a' <= s[0] <= 'z' then s[0] - 32 as char else s[0]] + Upper(s[1..])
  }

  function StripDots(s: string): string { if s != "" && s[|s| - 1] == '.' then StripDots(s[..|s| - 1]) else s }

  predicate IsId(s: string) { |s| == 32 && forall i | 0 <= i < 32 :: '0' <= s[i] <= '9' || 'a' <= s[i] <= 'f' }

  // ----- DNS records -----

  predicate ForPortal(r: Dns) { Lower(r.name) == PortalHost() }

  /** The records for the portal host. */
  function Matching(records: seq<Dns>): seq<Dns> {
    if records == [] then [] else (if ForPortal(records[0]) then [records[0]] else []) + Matching(records[1..])
  }

  predicate PointsTo(r: Dns, tunnel: string) { StripDots(Lower(r.content)) == Target(tunnel) && r.proxied }

  /** _dns_state; Conflict where it raises. */
  function StateOf(records: seq<Dns>, tunnel: string): DnsState {
    var m := Matching(records);
    if |m| > 1 then Conflict
    else if m == [] then Missing
    else if Upper(m[0].kind) != Cname() || !IsId(m[0].id) then Conflict
    else if PointsTo(m[0], tunnel) then Ready
    else Update(m[0].id)
  }

  function PortalRecord(id: string, tunnel: string): Dns { Dns(PortalHost(), Cname(), id, Target(tunnel), true) }

  function Replace(records: seq<Dns>, id: string, r: Dns): seq<Dns> {
    if records == [] then [] else [if records[0].id == id then r else records[0]] + Replace(records[1..], id, r)
  }

  predicate DistinctIds(records: seq<Dns>) {
    forall i, j | 0 <= i < j < |records| :: records[i].id != records[j].id
  }

  // ----- the zone -----

  /** What the requests read and write. A request that fails has counted a failure; a write that
      fails may or may not have been stored. */
  class Zone {
    const tunnel: string
    var trusted: bool
    var ingress: Option<seq<Rule>>
    var settings: map<string, string>
    var records: seq<Dns>
    var writes: nat
    var failures: nat

    constructor (tunnel: string, trusted: bool, ingress: Option<seq<Rule>>, settings: map<string, string>,
                 records: seq<Dns>)
      ensures this.tunnel == tunnel && this.trusted == trusted && this.ingress == ingress
      ensures this.settings == settings && this.records == records && writes == 0 && failures == 0
    {
      this.tunnel, this.trusted, this.ingress := tunnel, trusted, ingress;
      this.settings, this.records, writes, failures := settings, records, 0, 0;
    }

    method Get() returns (ok: bool)
      modifies this`failures
      ensures failures == old(failures) + if ok then 0 else 1
    {
      if * { return true; }
      failures := failures + 1;
      return false;
    }

    method PutConfiguration(rules: Option<seq<Rule>>, others: map<string, string>) returns (ok: bool)
      modifies this`ingress, this`settings, this`writes, this`failures
      ensures writes == old(writes) + 1 && failures == old(failures) + if ok then 0 else 1
      ensures ok ==> ingress == rules && settings == others
      ensures (ingress == rules && settings == others) || (ingress == old(ingress) && settings == old(settings))
    {
      writes := writes + 1;
      if * {
        ingress, settings := rules, others;
        return true;
      }
      failures := failures + 1;
      if * {
        ingress, settings := rules, others;
      }
      return false;
    }

    method PostRecord() returns (ok: bool)
      modifies this`records, this`writes, this`failures
      ensures writes == old(writes) + 1 && failures == old(failures) + if ok then 0 else 1
      ensures records == old(records) || exists id :: IsId(id) && records == old(records) + [PortalRecord(id, tunnel)]
      ensures ok ==> records != old(records)
    {
      writes := writes + 1;
      var id := NewId();
      if * {
        records := records + [PortalRecord(id, tunnel)];
        return true;
      }
      failures := failures + 1;
      if * {
        records := records + [PortalRecord(id, tunnel)];
      }
      return false;
    }

    /** The identifier the service picks; any 32 hexadecimal digits. */
    method NewId() returns (id: string)
      ensures IsId(id)
    {
      id := seq(32, _ => 'a');
    }

    method PutRecord(id: string) returns (ok: bool)
      modifies this`records, this`writes, this`failures
      ensures writes == old(writes) + 1 && failures == old(failures) + if ok then 0 else 1
      ensures ok ==> records == Replace(old(records), id, PortalRecord(id, tunnel))
      ensures records == old(records) || records == Replace(old(records), id, PortalRecord(id, tunnel))
    {
      writes := writes + 1;
      if * {
        records := Replace(records, id, PortalRecord(id, tunnel));
        return true;
      }
      failures := failures + 1;
      if * {
        records := Replace(records, id, PortalRecord(id, tunnel));
      }
      return false;
    }
  }

  // ----- the run -----

  /** How a run ends: the check's answer, or active, or where it raised. */
  datatype Outcome = Checked(ready: bool) | Active | Refused | TunnelFailed | DnsFailed | RollbackFailed | Unverified

  /** The tunnel rules are a fixed point of the rewrite and DNS points at the tunnel. */
  predicate IsActive(ingress: Option<seq<Rule>>, records: seq<Dns>, tunnel: string) {
    ingress.Some? && Rebuilt(ingress) == ingress && StateOf(records, tunnel) == Ready
  }

  /** What the checks before the first write demand. */
  predicate Startable(trusted: bool, ingress: Option<seq<Rule>>, records: seq<Dns>, tunnel: string) {
    trusted && Rebuilt(ingress).Some? && StateOf(records, tunnel) != Conflict
  }

  method Activate(z: Zone, apply: bool) returns (o: Outcome)
    modifies z
    ensures z.trusted == old(z.trusted)
    // Before the first write nothing changes, and a check says whether the zone is active.
    ensures o.Checked? || o == Refused || !apply ==>
      && z.ingress == old(z.ingress) && z.settings == old(z.settings)
      && z.records == old(z.records) && z.writes == old(z.writes)
    ensures !apply ==> o.Checked? || o == Refused
    ensures o.Checked? ==> !apply && (o.ready <==> IsActive(old(z.ingress), old(z.records), z.tunnel))
    ensures o == Refused && z.failures == old(z.failures) ==> !Startable(z.trusted, z.ingress, z.records, z.tunnel)
    // A run that ends active has the rewritten rules in place and DNS ready, and a second one keeps them.
    ensures o == Active ==>
      z.ingress == Rebuilt(old(z.ingress)) && z.settings == old(z.settings) && IsActive(z.ingress, z.records, z.tunnel)
    // A failed DNS step leaves the tunnel as it was, a failed verification the rewritten rules; where
    // a configuration write failed, the tunnel has the one or the other.
    ensures o == DnsFailed ==> z.ingress == old(z.ingress) && z.settings == old(z.settings)
    ensures o == Unverified ==> z.ingress == Rebuilt(old(z.ingress)) && z.settings == old(z.settings)
    ensures o == TunnelFailed || o == RollbackFailed ==> z.settings == old(z.settings)
    ensures o == TunnelFailed || o == RollbackFailed ==>
      z.ingress == old(z.ingress) || z.ingress == Rebuilt(old(z.ingress))
    ensures o == RollbackFailed ==> z.failures >= old(z.failures) + 2
    ensures o == TunnelFailed ==> z.records == old(z.records)
    // On an active zone nothing is written.
    ensures IsActive(old(z.ingress), old(z.records), z.tunnel) ==>
      z.writes == old(z.writes) && z.ingress == old(z.ingress) && z.records == old(z.records)
    // Without a failed request, a run passing the checks ends active exactly when the portal hostname was trimmed.
    ensures && apply && z.failures == old(z.failures) && Sound(old(z.records), z.tunnel)
            && Startable(z.trusted, old(z.ingress), old(z.records), z.tunnel) ==>
      o == if Trimmed(old(z.ingress).value) then Active else Unverified
  {
    hide Rebuilt, StateOf, Trimmed, Sound, PortalRecord, Replace, IsActive;
    var original, settings := z.ingress, z.settings;
    var ok := Trust(z);
    if !ok { return Refused; }
    ok := z.Get();
    if !ok { return Refused; }
    var desired := BuildPortalIngress(original);
    if desired.None? { return Refused; }
    ok := z.Get();
    if !ok { return Refused; }
    var dns := StateOf(z.records, z.tunnel);
    if dns == Conflict { return Refused; }
    var ready := original == desired;
    ActiveMeans(original, z.records, z.tunnel);
    if !apply {
      return Checked(ready && dns == Ready);
    }
    if !ready {
      ok := z.PutConfiguration(desired, settings);
      if !ok { return TunnelFailed; }
    }
    ok := WriteRecord(z, dns);
    if !ok {
      if !ready {
        ok := z.PutConfiguration(original, settings);
        if !ok { return RollbackFailed; }
      }
      return DnsFailed;
    }
    o := Verify(z, desired);
    RewriteTwice(original);
    ActiveMeans(z.ingress, z.records, z.tunnel);
  }

  lemma ActiveMeans(ingress: Option<seq<Rule>>, records: seq<Dns>, tunnel: string)
    ensures IsActive(ingress, records, tunnel) <==>
      ingress.Some? && Rebuilt(ingress) == ingress && StateOf(records, tunnel) == Ready
  {
    hide Rebuilt, StateOf;
  }

  lemma RewriteTwice(ingress: Option<seq<Rule>>)
    requires Rebuilt(ingress).Some?
    ensures Rebuilt(Rebuilt(ingress)) == if Trimmed(ingress.value) then Rebuilt(ingress) else None
  {
    assert Accepted(ingress.value);
    BuildingTwice(ingress.value);
    hide Accepted, Built, Trimmed;
  }

  /** The three requests that check the token, the zone and the tunnel. */
  method Trust(z: Zone) returns (ok: bool)
    modifies z`failures
    ensures z.failures >= old(z.failures)
    ensures ok ==> z.trusted && z.failures == old(z.failures)
    ensures !ok && z.failures == old(z.failures) ==> !z.trusted
  {
    var n := 0;
    while n < 3
      invariant n <= 3 && z.failures == old(z.failures)
    {
      ok := z.Get();
      if !ok { return false; }
      n := n + 1;
    }
    return z.trusted;
  }

  /** What the DNS service guarantees and the tunnel identity provides. */
  predicate Sound(records: seq<Dns>, tunnel: string) { DistinctIds(records) && Lower(tunnel) == tunnel }

  /** The DNS step: nothing when the record is ready, else one write. */
  method WriteRecord(z: Zone, dns: DnsState) returns (ok: bool)
    requires dns == StateOf(z.records, z.tunnel) && dns != Conflict
    modifies z`records, z`writes, z`failures
    ensures z.failures == old(z.failures) + if ok then 0 else 1
    ensures dns == Ready ==> ok && z.records == old(z.records) && z.writes == old(z.writes)
    ensures ok && Sound(old(z.records), z.tunnel) ==> StateOf(z.records, z.tunnel) == Ready
  {
    hide PortalRecord, Replace, StateOf, Sound;
    match dns
    case Ready => return true;
    case Missing =>
      ok := z.PostRecord();
      if ok && Sound(old(z.records), z.tunnel) { AddedIsReady(old(z.records), z.records, z.tunnel); }
    case Update(id) =>
      ok := z.PutRecord(id);
      if ok && Sound(old(z.records), z.tunnel) { ReplacedIsReady(old(z.records), id, z.tunnel); }
  }

  /** The reads after the writes: both must show what was meant. */
  method Verify(z: Zone, desired: Option<seq<Rule>>) returns (o: Outcome)
    requires desired.Some?
    modifies z`failures
    ensures z.failures >= old(z.failures)
    ensures o == Active || o == Unverified
    ensures o == Active ==> Rebuilt(z.ingress) == desired && StateOf(z.records, z.tunnel) == Ready
    ensures o == Unverified && z.failures == old(z.failures) ==>
      Rebuilt(z.ingress) != desired || StateOf(z.records, z.tunnel) != Ready
  {
    hide StateOf, Rebuilt;
    var ok := z.Get();
    if !ok { return Unverified; }
    ok := z.Get();
    if !ok { return Unverified; }
    var final := BuildPortalIngress(z.ingress);
    if final != desired || StateOf(z.records, z.tunnel) != Ready { return Unverified; }
    return Active;
  }

  // ----- the record is ready after the DNS step -----

  lemma {:induction false} LowerConcat(a: string, b: string)
    ensures Lower(a + b) == Lower(a) + Lower(b)
  {
    if a == "" {
      assert a + b == b;
    } else {
      assert (a + b)[1..] == a[1..] + b;
      LowerConcat(a[1..], b);
    }
  }

  lemma SuffixIsLower()
    ensures Lower(Suffix()) == Suffix()
  {
    LowerStaysLower(Suffix());
  }

  lemma SuffixEnd()
    ensures Suffix() != "" && Suffix()[|Suffix()| - 1] != '.'
  {
  }

  lemma TargetIsPlain(tunnel: string)
    requires Lower(tunnel) == tunnel
    ensures StripDots(Lower(Target(tunnel))) == Target(tunnel)
  {
    hide Lower, Suffix;
    LowerConcat(tunnel, Suffix());
    SuffixIsLower();
    SuffixEnd();
    assert Target(tunnel)[|Target(tunnel)| - 1] == Suffix()[|Suffix()| - 1];
  }

  lemma CnameIsUpper()
    ensures Upper(Cname()) == Cname()
  {
    assert Cname()[1..] == "NAME" && "NAME"[1..] == "AME" && "AME"[1..] == "ME" && "ME"[1..] == "E" && "E"[1..] == "";
  }

  lemma OneReady(id: string, tunnel: string, records: seq<Dns>)
    requires Lower(tunnel) == tunnel && IsId(id) && Matching(records) == [PortalRecord(id, tunnel)]
    ensures StateOf(records, tunnel) == Ready
  {
    TargetIsPlain(tunnel);
    CnameIsUpper();
    hide Lower, Upper, StripDots, Matching, Target, Cname, PortalHost;
  }

  lemma PortalRecordMatches(id: string, tunnel: string)
    ensures ForPortal(PortalRecord(id, tunnel))
  {
    PortalLower();
  }

  lemma {:induction false} MatchingAppended(records: seq<Dns>, r: Dns)
    ensures Matching(records + [r]) == Matching(records) + if ForPortal(r) then [r] else []
  {
    hide ForPortal;
    if records == [] {
      assert records + [r] == [r];
      assert [r][1..] == [];
    } else {
      assert (records + [r])[1..] == records[1..] + [r];
      MatchingAppended(records[1..], r);
    }
  }

  lemma AddedIsReady(before: seq<Dns>, after: seq<Dns>, tunnel: string)
    requires StateOf(before, tunnel) == Missing && Sound(before, tunnel) && after != before
    requires after == before || exists id :: IsId(id) && after == before + [PortalRecord(id, tunnel)]
    ensures StateOf(after, tunnel) == Ready
  {
    var id :| IsId(id) && after == before + [PortalRecord(id, tunnel)];
    assert Matching(before) == [];
    PortalRecordMatches(id, tunnel);
    MatchingAppended(before, PortalRecord(id, tunnel));
    hide Matching, StateOf, ForPortal, PortalRecord, IsId;
    OneReady(id, tunnel, after);
  }

  lemma {:induction false} MatchingMembers(records: seq<Dns>, r: Dns)
    ensures r in Matching(records) <==> r in records && ForPortal(r)
  {
    hide ForPortal;
    if records != [] { MatchingMembers(records[1..], r); }
  }

  lemma {:induction false} MatchingReplaced(records: seq<Dns>, id: string, r: Dns)
    requires ForPortal(r) && forall i | 0 <= i < |records| :: records[i].id == id <==> ForPortal(records[i])
    ensures |Matching(Replace(records, id, r))| == |Matching(records)|
    ensures forall i | 0 <= i < |Matching(records)| :: Matching(Replace(records, id, r))[i] == r
  {
    hide ForPortal;
    if records != [] {
      MatchingReplaced(records[1..], id, r);
      assert Replace(records, id, r)[1..] == Replace(records[1..], id, r);
    }
  }

  lemma ReplacedIsReady(records: seq<Dns>, id: string, tunnel: string)
    requires StateOf(records, tunnel) == Update(id) && Sound(records, tunnel)
    ensures StateOf(Replace(records, id, PortalRecord(id, tunnel)), tunnel) == Ready
  {
    hide StateOf, Matching, ForPortal, PortalRecord, IsId, Lower, Replace, DistinctIds;
    var only := UpdateMeans(records, id, tunnel);
    var r := PortalRecord(id, tunnel);
    PortalRecordMatches(id, tunnel);
    OnlyMatch(records, only);
    MatchingReplaced(records, id, r);
    var after := Matching(Replace(records, id, r));
    assert |after| == 1 && after[0] == r;
    assert after == [r];
    OneReady(id, tunnel, Replace(records, id, r));
  }

  lemma UpdateMeans(records: seq<Dns>, id: string, tunnel: string) returns (only: Dns)
    requires StateOf(records, tunnel) == Update(id)
    ensures Matching(records) == [only] && only.id == id && IsId(id)
  {
    hide Matching, Upper, Cname, PointsTo, IsId;
    only := Matching(records)[0];
  }

  lemma OnlyMatch(records: seq<Dns>, only: Dns)
    requires Matching(records) == [only] && DistinctIds(records)
    ensures forall i | 0 <= i < |records| :: records[i].id == only.id <==> ForPortal(records[i])
  {
    hide Matching, ForPortal;
    MatchingMembers(records, only);
    assert only in Matching(records);
    var j :| 0 <= j < |records| && records[j] == only;
    forall i | 0 <= i < |records| ensures records[i].id == only.id <==> ForPortal(records[i]) {
      MatchingMembers(records, records[i]);
    }
  }
}
