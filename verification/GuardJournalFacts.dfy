/** Facts about the journal text: decoding undoes printing, a torn write is refused, a
    longer journal keeps the records of a shorter one, and the last digest determines
    every record unless two different texts with one digest can be exhibited. */
module GuardJournalFacts {
  import opened Prelude
  import opened CanonicalJson
  import opened GuardJournal

  // ----- decoding undoes printing -----

  lemma {:induction false} LookupAt(fs: seq<Field>, i: nat)
    requires i < |fs| && forall j | 0 <= j < i :: fs[j].key != fs[i].key
    ensures Lookup(fs, fs[i].key) == Some(fs[i].value)
  {
    if i > 0 {
      LookupAt(fs[1..], i - 1);
    }
  }

  predicate DistinctKeys(fs: seq<Field>) {
    forall i, j | 0 <= i < j < |fs| :: fs[i].key != fs[j].key
  }

  lemma LookupEach(fs: seq<Field>)
    requires DistinctKeys(fs)
    ensures forall i | 0 <= i < |fs| :: Lookup(fs, fs[i].key) == Some(fs[i].value)
  {
    forall i | 0 <= i < |fs| ensures Lookup(fs, fs[i].key) == Some(fs[i].value) {
      LookupAt(fs, i);
    }
  }

  lemma ContextKeysDistinct(c: Context)
    ensures DistinctKeys(ContextJson(c).fields)
  {
  }

  lemma DecodeContext(c: Context)
    ensures ContextOf(ContextJson(c).fields) == Some(c)
  {
    hide DistinctKeys, Lookup;
    var fs := ContextJson(c).fields;
    ContextKeysDistinct(c);
    LookupEach(fs);
    assert fs[0].key == "boot_id" && fs[1].key == "generation";
    if c.Binding? {
      assert fs[2].key == "main_commit" && fs[3].key == "maintenance_status" && fs[4].key == "operation_id";
      assert fs[5].key == "source_clean" && fs[6].key == "source_commit";
    } else {
      assert fs[2].key == "local_main_commit" && fs[3].key == "main_commit" && fs[4].key == "maintenance_status";
      assert fs[5].key == "operation_id" && fs[6].key == "source_clean" && fs[7].key == "source_commit";
    }
  }

  lemma DecodePayload(p: Payload)
    ensures PayloadOf(KindOf(p), PayloadJson(p).fields) == Some(p)
  {
    if p.Intent? { DecodeIntent(p); } else { DecodeCompletion(p); }
  }

  lemma DecodeIntent(p: Payload)
    requires p.Intent?
    ensures PayloadOf("intent", PayloadJson(p).fields) == Some(p)
  {
    hide ContextOf, ContextJson, ActionOf, ActionName;
    var fs := PayloadJson(p).fields;
    assert DistinctKeys(fs);
    LookupEach(fs);
    assert fs[0].key == "action" && fs[1].key == "binding" && fs[2].key == "request_id" && fs[3].key == "target_commit";
    ContextIsObject(p.binding);
    DecodeContext(p.binding);
    ActionDecodes(p.action);
  }

  lemma ContextIsObject(c: Context)
    ensures ContextJson(c).JObject?
  {
  }

  lemma DecodeCompletion(p: Payload)
    requires p.Completion?
    ensures PayloadOf("result", PayloadJson(p).fields) == Some(p)
  {
    hide OutcomeOf, OutcomeName;
    var fs := PayloadJson(p).fields;
    assert DistinctKeys(fs);
    LookupEach(fs);
    assert fs[0].key == "evidence_sha256" && fs[1].key == "intent_sha256" && fs[2].key == "outcome";
    OutcomeDecodes(p.outcome);
  }

  lemma ItemKeysDistinct(item: Item)
    ensures DistinctKeys(ItemJson(item).fields)
  {
  }

  lemma ItemTexts(item: Item)
    ensures var fs := ItemJson(item).fields;
      && |fs| == 10
      && Text(fs, "at") == Some(item.body.at)
      && Text(fs, "kind") == Some(KindOf(item.body.payload))
      && Text(fs, "previous") == Some(item.body.previous)
      && Text(fs, "run_id") == Some(item.body.runId)
      && Text(fs, "schema") == Some("aionex.fr06-exclusive-effect.v1")
      && Text(fs, "sha256") == Some(item.sha256)
      && Text(fs, "task_id") == Some("6abd4c859254819191f562715e18c916")
  {
    hide KindOf, InvocationName, PayloadJson;
    var fs := ItemJson(item).fields;
    ItemKeysDistinct(item);
    LookupEach(fs);
    assert fs[0].key == "at" && fs[2].key == "kind" && fs[4].key == "previous" && fs[5].key == "run_id";
    assert fs[6].key == "schema" && fs[8].key == "sha256" && fs[9].key == "task_id";
  }

  lemma ItemValues(item: Item)
    ensures var fs := ItemJson(item).fields;
      && Whole(fs, "sequence") == Some(item.body.sequence)
      && Object(fs, "payload") == Some(PayloadJson(item.body.payload).fields)
      && InvocationAt(fs) == Some(item.body.invocation)
  {
    var fs := ItemJson(item).fields;
    ItemKeysDistinct(item);
    LookupEach(fs);
    assert fs[1].key == "invocation_type" && fs[3].key == "payload" && fs[7].key == "sequence";
    InvocationDecodes(item.body.invocation);
  }

  lemma DecodeItem(item: Item)
    ensures ItemOf(ItemJson(item).fields) == Some(item)
  {
    hide Text, Whole, Object, InvocationAt, ItemJson, PayloadOf, PayloadJson, KindOf;
    ItemTexts(item);
    ItemValues(item);
    DecodePayload(item.body.payload);
  }

  // ----- every field of an acceptable record is ASCII -----

  predicate AsciiKeys(fs: seq<Field>) {
    forall i | 0 <= i < |fs| :: Ascii(fs[i].key)
  }

  predicate AsciiContext(c: Context) {
    && Ascii(c.sourceCommit) && Ascii(c.mainCommit) && Ascii(c.bootId) && Ascii(c.operationId)
    && Ascii(c.maintenanceStatus) && (c.SyncBinding? ==> Ascii(c.localMainCommit))
  }

  lemma CommitKeysAscii()
    ensures Ascii("boot_id") && Ascii("generation") && Ascii("local_main_commit") && Ascii("main_commit")
  {
  }

  lemma StateKeysAscii()
    ensures Ascii("maintenance_status") && Ascii("operation_id") && Ascii("source_clean") && Ascii("source_commit")
  {
  }

  lemma BindingKeysAscii(c: Context)
    requires c.Binding?
    ensures AsciiKeys(ContextJson(c).fields)
  {
    hide Ascii;
    CommitKeysAscii();
    StateKeysAscii();
  }

  lemma SyncBindingKeysAscii(c: Context)
    requires c.SyncBinding?
    ensures AsciiKeys(ContextJson(c).fields)
  {
    hide Ascii;
    CommitKeysAscii();
    StateKeysAscii();
  }

  /** A field that holds no object, and whose text, if it is one, is ASCII. */
  predicate PlainField(f: Field) {
    match f.value
    case JString(s) => Ascii(s)
    case JObject(_) => false
    case _ => true
  }

  lemma PlainAscii(fs: seq<Field>)
    requires AsciiKeys(fs) && forall i | 0 <= i < |fs| :: PlainField(fs[i])
    ensures AsciiJson(JObject(fs))
  {
  }

  lemma ContextAscii(c: Context)
    requires AsciiContext(c)
    ensures AsciiJson(ContextJson(c))
  {
    if c.Binding? { BindingKeysAscii(c); } else { SyncBindingKeysAscii(c); }
    PlainAscii(ContextJson(c).fields);
  }

  predicate AsciiPayload(p: Payload) {
    if p.Intent? then Ascii(p.requestId) && Ascii(p.targetCommit) && AsciiContext(p.binding)
    else Ascii(p.intentSha256) && Ascii(p.evidenceSha256)
  }

  lemma IntentKeysAscii(p: Payload)
    requires p.Intent?
    ensures AsciiKeys(PayloadJson(p).fields)
  {
    hide ContextJson, ActionName;
  }

  lemma CompletionKeysAscii(p: Payload)
    requires p.Completion?
    ensures AsciiKeys(PayloadJson(p).fields)
  {
    hide OutcomeName;
  }

  lemma PayloadKeysAscii(p: Payload)
    ensures AsciiKeys(PayloadJson(p).fields)
  {
    hide PayloadJson;
    if p.Intent? { IntentKeysAscii(p); } else { CompletionKeysAscii(p); }
  }

  lemma PayloadAscii(p: Payload)
    requires AsciiPayload(p)
    ensures AsciiJson(PayloadJson(p))
  {
    var fs := PayloadJson(p).fields;
    PayloadKeysAscii(p);
    if p.Intent? {
      ContextAscii(p.binding);
      ActionNameAscii(p.action);
    } else {
      OutcomeNameAscii(p.outcome);
    }
    forall i | 0 <= i < |fs| ensures AsciiJson(fs[i].value) {
      if p.Completion? || i != 1 { assert PlainField(fs[i]); }
    }
  }

  predicate AsciiItem(item: Item) {
    var b := item.body;
    && Ascii(b.at) && AsciiPayload(b.payload) && Ascii(b.previous) && Ascii(b.runId) && Ascii(item.sha256)
  }

  lemma ItemAscii(item: Item)
    requires AsciiItem(item)
    ensures AsciiJson(ItemJson(item))
  {
    ItemKeysAscii(item);
    var fs := ItemJson(item).fields;
    PayloadAscii(item.body.payload);
    InvocationNameAscii(item.body.invocation);
    ConstantsAscii();
    forall i | 0 <= i < |fs| ensures AsciiJson(fs[i].value) {
      if i != 3 { assert PlainField(fs[i]) by { KindAscii(item.body.payload); } }
    }
  }

  lemma KindAscii(p: Payload)
    ensures Ascii(KindOf(p))
  {
  }

  lemma ActionNameAscii(a: Action)
    ensures Ascii(ActionName(a))
  {
    hide Ascii;
    ShortActionsAscii();
    LongActionsAscii();
  }

  lemma ShortActionsAscii()
    ensures Ascii("source_merge") && Ascii("source_sync") && Ascii("host_state") && Ascii("reboot_recovery")
  {
  }

  lemma LongActionsAscii()
    ensures Ascii("service_lifecycle") && Ascii("maintenance_transition")
    ensures Ascii("provider_settlement") && Ascii("memory_activation")
  {
  }

  lemma OutcomeNameAscii(o: Outcome)
    ensures Ascii(OutcomeName(o))
  {
  }

  lemma InvocationNameAscii(i: Invocation)
    ensures Ascii(InvocationName(i))
  {
  }

  lemma ConstantsAscii()
    ensures Ascii(SCHEMA) && Ascii(TASK_ID)
  {
  }

  lemma InvocationDecodes(i: Invocation)
    ensures InvocationOf(InvocationName(i)) == Some(i)
  {
  }

  lemma ActionDecodes(a: Action)
    ensures ActionOf(ActionName(a)) == Some(a)
  {
  }

  lemma OutcomeDecodes(o: Outcome)
    ensures OutcomeOf(OutcomeName(o)) == Some(o)
  {
  }

  lemma ItemKeysAscii(item: Item)
    ensures AsciiKeys(ItemJson(item).fields)
  {
    hide PayloadJson, KindOf, InvocationName;
  }

  /** One line of the journal decodes to the record it was written from. */
  lemma DecodeUndoesLine(item: Item)
    requires AsciiItem(item)
    ensures DecodeLine(Print(ItemJson(item))) == Some(item)
  {
    ItemAscii(item);
    LoadsUndoesPrint(ItemJson(item));
    DecodeItem(item);
  }

  /** Two bodies with one canonical text are one body. */
  lemma BodyTextInjective(a: Item, b: Item)
    requires AsciiItem(a) && AsciiItem(b)
    requires DigestedText(a.body) == DigestedText(b.body)
    ensures a.body == b.body
  {
    BodyAscii(a);
    BodyAscii(b);
    LoadsUndoesPrint(BodyJson(a.body));
    LoadsUndoesPrint(BodyJson(b.body));
    BodyJsonInjective(a.body, b.body);
  }

  lemma BodyAscii(item: Item)
    requires AsciiItem(item)
    ensures AsciiJson(BodyJson(item.body))
  {
    ItemAscii(item);
    var fs, gs := BodyJson(item.body).fields, ItemJson(item).fields;
    forall i | 0 <= i < |fs| ensures Ascii(fs[i].key) && AsciiJson(fs[i].value) {
      assert fs[i] == gs[if i < 8 then i else i + 1];
    }
  }

  lemma BodyJsonInjective(a: Body, b: Body)
    requires BodyJson(a) == BodyJson(b)
    ensures a == b
  {
    var fs, gs := BodyJson(a).fields, BodyJson(b).fields;
    assert fs[0] == gs[0] && fs[1] == gs[1] && fs[2] == gs[2] && fs[3] == gs[3] && fs[4] == gs[4];
    assert fs[5] == gs[5] && fs[6] == gs[6] && fs[7] == gs[7] && fs[8] == gs[8];
    DecodePayload(a.payload);
    DecodePayload(b.payload);
    InvocationDecodes(a.invocation);
    InvocationDecodes(b.invocation);
  }

  // ----- what an accepted ledger holds -----

  function Front(items: seq<Item>): seq<Item>
    requires items != []
  {
    items[..|items| - 1]
  }

  function Last(items: seq<Item>): Item
    requires items != []
  {
    items[|items| - 1]
  }

  /** The ledger that a sequence of records leaves. */
  function LedgerOf(items: seq<Item>): (led: Ledger)
    ensures led.items == items
  {
    if items == [] then EMPTY
    else
      assert Front(items) + [Last(items)] == items;
      Extend(LedgerOf(Front(items)), Last(items))
  }

  /** Every record was acceptable after the ones before it. */
  ghost predicate Journal(digest: Body -> string, items: seq<Item>) {
    items == [] || (Journal(digest, Front(items)) && Fits(digest, LedgerOf(Front(items)), Last(items)))
  }

  lemma {:induction false} ScanIsJournal(digest: Body -> string, lines: seq<string>)
    requires Scan(digest, lines).Some?
    ensures var led := Scan(digest, lines).value;
      led == LedgerOf(led.items) && Journal(digest, led.items) && |led.items| == |lines|
  {
    hide Fits;
    if lines != [] {
      var front := lines[..|lines| - 1];
      ScanIsJournal(digest, front);
      var led := Scan(digest, front).value;
      JournalExtend(digest, led.items, ParseRecord(lines[|lines| - 1]).value);
    }
  }

  lemma JournalExtend(digest: Body -> string, items: seq<Item>, item: Item)
    requires Journal(digest, items) && Fits(digest, LedgerOf(items), item)
    ensures Journal(digest, items + [item]) && LedgerOf(items + [item]) == Extend(LedgerOf(items), item)
  {
    hide Fits;
    assert Front(items + [item]) == items;
  }

  lemma {:induction false} JournalTake(digest: Body -> string, items: seq<Item>, n: nat)
    requires Journal(digest, items) && n <= |items|
    ensures Journal(digest, items[..n])
  {
    hide Fits, LedgerOf;
    if n == |items| {
      assert items[..n] == items;
    } else {
      JournalTake(digest, Front(items), n);
      assert Front(items)[..n] == items[..n];
    }
  }

  lemma JournalAt(digest: Body -> string, items: seq<Item>, n: nat)
    requires Journal(digest, items) && n < |items|
    ensures Fits(digest, LedgerOf(items[..n]), items[n])
  {
    hide Fits, Journal, LedgerOf;
    var taken := items[..n + 1];
    JournalTake(digest, items, n + 1);
    assert Front(taken) == items[..n] && Last(taken) == items[n];
    LastFits(digest, taken, items[..n], items[n]);
  }

  lemma LastFits(digest: Body -> string, items: seq<Item>, front: seq<Item>, last: Item)
    requires Journal(digest, items) && items != [] && front == Front(items) && last == Last(items)
    ensures Fits(digest, LedgerOf(front), last)
  {
    hide Fits;
  }

  /** The pairing part of what the reader checks on one record. */
  predicate Pairs(pending: Option<Item>, item: Item) {
    if item.body.payload.Intent? then pending == None
    else
      && pending.Some?
      && item.body.payload.intentSha256 == pending.value.sha256
      && item.body.runId == pending.value.body.runId
  }

  function OpenAfter(items: seq<Item>): Option<Item> {
    if items != [] && Last(items).body.payload.Intent? then Some(Last(items)) else None
  }

  predicate Paired(items: seq<Item>) {
    items == [] || (Paired(Front(items)) && Pairs(OpenAfter(Front(items)), Last(items)))
  }

  lemma OpenIntent(items: seq<Item>)
    ensures LedgerOf(items).pending == OpenAfter(items)
  {
  }

  lemma FitsPairs(digest: Body -> string, led: Ledger, item: Item)
    requires Fits(digest, led, item)
    ensures Pairs(led.pending, item)
    ensures item.body.payload.Intent? ==> item.body.payload.requestId !in led.used
    ensures item.body.sequence == |led.items| + 1 && item.body.previous == Previous(led.items)
  {
  }

  lemma {:induction false} JournalPaired(digest: Body -> string, items: seq<Item>)
    requires Journal(digest, items)
    ensures Paired(items)
  {
    hide Fits;
    if items != [] {
      JournalPaired(digest, Front(items));
      FitsPairs(digest, LedgerOf(Front(items)), Last(items));
      OpenIntent(Front(items));
    }
  }

  lemma {:induction false} PairedAt(items: seq<Item>, i: nat)
    requires Paired(items) && i < |items|
    ensures items[i].body.payload.Intent? <==> i % 2 == 0
    ensures i % 2 == 1 ==> Pairs(Some(items[i - 1]), items[i])
  {
    if i == |items| - 1 {
      if i > 0 {
        PairedAt(Front(items), i - 1);
      }
    } else {
      PairedAt(Front(items), i);
    }
  }

  lemma {:induction false} UsedIdentities(items: seq<Item>, i: nat)
    requires i < |items| && items[i].body.payload.Intent?
    ensures items[i].body.payload.requestId in LedgerOf(items).used
  {
    if i < |items| - 1 {
      UsedIdentities(Front(items), i);
    }
  }

  /** Intents and results take turns, and every result answers the intent just before it
      by the same run. */
  predicate TakeTurns(items: seq<Item>) {
    && (forall i | 0 <= i < |items| :: items[i].body.payload.Intent? <==> i % 2 == 0)
    && (forall i | 0 <= i < |items| && i % 2 == 1 :: Pairs(Some(items[i - 1]), items[i]))
  }

  /** The records of every accepted journal take turns. */
  lemma ResultsAnswerIntents(digest: Body -> string, items: seq<Item>)
    requires Journal(digest, items)
    ensures TakeTurns(items)
  {
    hide Journal;
    JournalPaired(digest, items);
    PairedEverywhere(items);
  }

  lemma PairedEverywhere(items: seq<Item>)
    requires Paired(items)
    ensures forall i | 0 <= i < |items| :: items[i].body.payload.Intent? <==> i % 2 == 0
    ensures forall i | 0 <= i < |items| && i % 2 == 1 :: Pairs(Some(items[i - 1]), items[i])
  {
    forall i | 0 <= i < |items|
      ensures items[i].body.payload.Intent? <==> i % 2 == 0
      ensures i % 2 == 1 ==> Pairs(Some(items[i - 1]), items[i])
    {
      PairedAt(items, i);
    }
  }

  /** No request identity occurs twice. */
  lemma RequestsAreDistinct(digest: Body -> string, items: seq<Item>, i: nat, j: nat)
    requires Journal(digest, items) && i < j < |items|
    requires items[i].body.payload.Intent? && items[j].body.payload.Intent?
    ensures items[i].body.payload.requestId != items[j].body.payload.requestId
  {
    JournalAt(digest, items, j);
    FitsPairs(digest, LedgerOf(items[..j]), items[j]);
    UsedIdentities(items[..j], i);
  }

  // ----- the digest chain -----

  /** SHA-256 prints 64 hexadecimal digits. */
  ghost predicate HexDigests(digest: Body -> string) {
    forall b :: IsHex(digest(b), 64)
  }

  lemma HexIsAscii(s: string, n: nat)
    requires IsHex(s, n)
    ensures Ascii(s)
  {
    forall i | 0 <= i < |s| ensures s[i] < '\U{80}' { assert HexChar(s[i]); }
  }

  lemma UuidIsAscii(s: string)
    requires IsUuid(s)
    ensures Ascii(s)
  {
    forall i | 0 <= i < |s| ensures s[i] < '\U{80}' {
      assert if i in {8, 13, 18, 23} then s[i] == '-' else HexChar(s[i]);
    }
  }

  lemma TimeIsAscii(s: string)
    requires IsUtcTime(s)
    ensures Ascii(s)
  {
    hide OnCalendar;
    var pattern := if Matches(s, "0000-00-00T00:00:00+00:00")
                   then "0000-00-00T00:00:00+00:00" else "0000-00-00T00:00:00.000000+00:00";
    assert Ascii(pattern);
    forall i | 0 <= i < |s| ensures s[i] < '\U{80}' {
      if i < |s| - 6 {
        assert if pattern[i] == '0' then Digit(s[i]) else s[i] == pattern[i];
      } else {
        assert s[i] == s[|s| - 6..][i - (|s| - 6)] == pattern[|s| - 6..][i - (|s| - 6)] == pattern[i];
      }
    }
  }

  lemma ContextIsAscii(c: Context)
    requires ValidContext(c)
    ensures AsciiContext(c)
  {
    HexIsAscii(c.sourceCommit, 40);
    HexIsAscii(OwnMain(c), 40);
    HexIsAscii(c.mainCommit, 40);
    UuidIsAscii(c.bootId);
    UuidIsAscii(c.operationId);
    assert Ascii("closed");
  }

  lemma PayloadIsAscii(digest: Body -> string, items: seq<Item>, b: Body)
    requires HexDigests(digest) && Journal(digest, items)
    requires if b.payload.Intent? then IntentFits(LedgerOf(items).pending, LedgerOf(items).used, b.payload)
             else CompletionFits(LedgerOf(items).pending, b)
    ensures AsciiPayload(b.payload)
  {
    if b.payload.Intent? {
      UuidIsAscii(b.payload.requestId);
      HexIsAscii(b.payload.targetCommit, 40);
      ContextIsAscii(b.payload.binding);
    } else {
      OpenIntent(items);
      PreviousIsHex(digest, items);
      HexIsAscii(b.payload.intentSha256, 64);
      HexIsAscii(b.payload.evidenceSha256, 64);
    }
  }

  lemma OwnedIsAscii(digest: Body -> string, item: Item)
    requires HexDigests(digest) && Owned(digest, item)
    ensures Ascii(item.body.at) && Ascii(item.body.runId) && Ascii(item.sha256)
  {
    var b := item.body;
    TimeIsAscii(b.at);
    HexIsAscii(digest(b), 64);
    forall i | 0 <= i < |b.runId| ensures b.runId[i] < '\U{80}' { assert NameChar(b.runId[i]); }
  }

  /** The reader accepts only records whose text is ASCII. */
  lemma AcceptedIsAscii(digest: Body -> string, items: seq<Item>, item: Item)
    requires HexDigests(digest) && Journal(digest, items) && Fits(digest, LedgerOf(items), item)
    ensures AsciiItem(item)
  {
    OwnedIsAscii(digest, item);
    PreviousIsHex(digest, items);
    HexIsAscii(item.body.previous, 64);
    PayloadIsAscii(digest, items, item.body);
  }

  lemma PreviousIsHex(digest: Body -> string, items: seq<Item>)
    requires HexDigests(digest) && Journal(digest, items)
    ensures IsHex(Previous(items), 64)
  {
    if items != [] {
      assert IsHex(digest(Last(items).body), 64);
    }
  }

  /** Two different acceptable records with one digest. */
  predicate Clash(digest: Body -> string, x: Item, y: Item) {
    AsciiItem(x) && AsciiItem(y) && x.body != y.body && digest(x.body) == digest(y.body)
  }

  /** Two journals with one last digest are one journal, or hold two records that clash. */
  lemma {:induction false} SameLastDigest(digest: Body -> string, a: seq<Item>, b: seq<Item>)
      returns (x: Item, y: Item)
    requires HexDigests(digest) && Journal(digest, a) && Journal(digest, b)
    requires a != [] && b != [] && Previous(a) == Previous(b)
    ensures a == b || Clash(digest, x, y)
    decreases |a|
  {
    hide Journal, Fits;
    x, y := Last(a), Last(b);
    if x.body != y.body {
      LastRecordsClash(digest, a, b);
    } else {
      LastRecordsAgree(digest, a, b);
      if |a| > 1 {
        FrontsAgree(digest, a, b);
        x, y := SameLastDigest(digest, Front(a), Front(b));
      }
    }
  }

  lemma LastRecordsClash(digest: Body -> string, a: seq<Item>, b: seq<Item>)
    requires HexDigests(digest) && Journal(digest, a) && Journal(digest, b)
    requires a != [] && b != [] && Previous(a) == Previous(b) && Last(a).body != Last(b).body
    ensures Clash(digest, Last(a), Last(b))
  {
    LastRecord(digest, a);
    LastRecord(digest, b);
  }

  lemma LastRecordsAgree(digest: Body -> string, a: seq<Item>, b: seq<Item>)
    requires Journal(digest, a) && Journal(digest, b) && a != [] && b != []
    requires Previous(a) == Previous(b) && Last(a).body == Last(b).body
    ensures |a| == |b| && (Front(a) == Front(b) ==> a == b)
  {
    hide Journal, Fits;
    LastNumber(digest, a);
    LastNumber(digest, b);
    assert a == Front(a) + [Last(a)] && b == Front(b) + [Last(b)];
  }

  /** The last digest determines the entire journal, or else two different texts with the
      same SHA-256 can be exhibited. */
  lemma LastDigestDeterminesJournal(sha: string -> string, digest: Body -> string, a: seq<Item>, b: seq<Item>)
    requires HexDigests(digest) && forall x :: digest(x) == sha(DigestedText(x))
    requires Journal(digest, a) && Journal(digest, b)
    requires a != [] && b != [] && Previous(a) == Previous(b)
    ensures a == b || exists s, t :: s != t && sha(s) == sha(t)
  {
    var x, y := SameLastDigest(digest, a, b);
    if a != b {
      ClashIsCollision(sha, digest, x, y);
    }
  }

  lemma ClashIsCollision(sha: string -> string, digest: Body -> string, x: Item, y: Item)
    requires Clash(digest, x, y)
    requires digest(x.body) == sha(DigestedText(x.body)) && digest(y.body) == sha(DigestedText(y.body))
    ensures exists s, t :: s != t && sha(s) == sha(t)
  {
    var s, t := DigestedText(x.body), DigestedText(y.body);
    if s == t {
      BodyTextInjective(x, y);
    }
    assert sha(s) == sha(t);
  }

  lemma FrontsAgree(digest: Body -> string, a: seq<Item>, b: seq<Item>)
    requires Journal(digest, a) && Journal(digest, b) && a != [] && b != [] && Last(a).body == Last(b).body
    ensures Journal(digest, Front(a)) && Journal(digest, Front(b)) && Previous(Front(a)) == Previous(Front(b))
  {
    hide Fits;
    JournalFront(digest, a);
    JournalFront(digest, b);
    LastLink(digest, a);
    LastLink(digest, b);
  }

  lemma LastRecord(digest: Body -> string, items: seq<Item>)
    requires HexDigests(digest) && Journal(digest, items) && items != []
    ensures AsciiItem(Last(items)) && Owned(digest, Last(items))
  {
    AcceptedIsAscii(digest, Front(items), Last(items));
  }

  lemma LastNumber(digest: Body -> string, items: seq<Item>)
    requires Journal(digest, items) && items != []
    ensures Last(items).body.sequence == |items|
  {
    hide Fits;
    FitsPairs(digest, LedgerOf(Front(items)), Last(items));
  }

  lemma LastLink(digest: Body -> string, items: seq<Item>)
    requires Journal(digest, items) && items != []
    ensures Last(items).body.previous == Previous(Front(items))
  {
    hide Fits;
    FitsPairs(digest, LedgerOf(Front(items)), Last(items));
  }

  lemma JournalFront(digest: Body -> string, items: seq<Item>)
    requires Journal(digest, items) && items != []
    ensures Journal(digest, Front(items))
  {
    hide Fits;
  }

  // ----- the text of a journal -----

  lemma {:induction false} LineLengthOf(line: string, rest: string)
    requires OneLine(line)
    ensures LineLength(line + "\n" + rest) == |line|
  {
    var t := line + "\n" + rest;
    if line != "" {
      LineLengthOf(line[1..], rest);
      assert t[1..] == line[1..] + "\n" + rest;
    }
  }

  lemma SplitFirst(line: string, rest: string)
    requires OneLine(line)
    ensures SplitLines(line + "\n" + rest) == [line] + SplitLines(rest)
  {
    var t := line + "\n" + rest;
    LineLengthOf(line, rest);
    assert t[..|line|] == line && t[|line| + 1..] == rest;
  }

  lemma {:induction false} LineLengthPrefix(p: string, x: string)
    requires LineLength(p) < |p|
    ensures LineLength(p + x) == LineLength(p)
  {
    if p[0] != '\n' && p[0] != '\r' {
      assert (p + x)[1..] == p[1..] + x;
      LineLengthPrefix(p[1..], x);
    }
  }

  lemma OneLineEnd(p: string)
    requires p != "" && LineLength(p) == |p|
    ensures p[|p| - 1] != '\n'
  {
    assert p[..LineLength(p)] == p;
  }

  lemma TerminatedLine(p: string, x: string)
    requires p != "" && Terminated(p)
    ensures LineLength(p) < |p| && Terminated(p[NextLine(p, LineLength(p))..])
    ensures NextLine(p + x, LineLength(p)) == NextLine(p, LineLength(p))
  {
    var n := LineLength(p);
    assert n < |p| by {
      if n == |p| { OneLineEnd(p); }
    }
  }

  lemma SplitUnfold(t: string, n: nat, tail: string)
    requires LineLength(t) == n < |t| && t[NextLine(t, n)..] == tail
    ensures SplitLines(t) == [t[..n]] + SplitLines(tail)
  {
  }

  /** Splitting at a line end splits the text after it separately. */
  lemma {:induction false} SplitConcat(p: string, x: string)
    requires Terminated(p)
    ensures SplitLines(p + x) == SplitLines(p) + SplitLines(x)
    decreases |p|
  {
    if p == "" {
      assert p + x == x;
    } else {
      var n := LineLength(p);
      TerminatedLine(p, x);
      LineLengthPrefix(p, x);
      var tail := p[NextLine(p, n)..];
      assert (p + x)[..n] == p[..n];
      assert (p + x)[NextLine(p, n)..] == tail + x;
      SplitUnfold(p, n, tail);
      SplitUnfold(p + x, n, tail + x);
      SplitConcat(tail, x);
      AppendAssociates([p[..n]], SplitLines(tail), SplitLines(x));
    }
  }

  lemma AppendAssociates(a: seq<string>, b: seq<string>, c: seq<string>)
    ensures a + (b + c) == a + b + c
  {
  }

  /** The reader of base plus one complete line reads that line after the records of base. */
  lemma ReadOneMore(digest: Body -> string, base: string, line: string)
    requires ReadLedger(digest, base).Some? && OneLine(line) && |base| + |line| + 1 <= MAX_JOURNAL_BYTES
    ensures ReadLedger(digest, base + line + "\n") == ReadLine(digest, ReadLedger(digest, base).value, line)
  {
    hide ReadLine, SplitLines;
    SplitMore(base, line);
    var text, lines := base + line + "\n", SplitLines(base) + [line];
    assert text[|text| - 1] == '\n';
    assert lines[..|lines| - 1] == SplitLines(base);
  }

  lemma SplitMore(base: string, line: string)
    requires Terminated(base) && OneLine(line)
    ensures SplitLines(base + line + "\n") == SplitLines(base) + [line]
  {
    hide SplitLines;
    assert base + line + "\n" == base + (line + "\n");
    SplitConcat(base, line + "\n");
    SplitFirst(line, "");
    assert line + "\n" + "" == line + "\n";
    NoLines();
  }

  lemma NoLines()
    ensures SplitLines("") == []
  {
  }

  /** The second ledger is the first one and one more record. */
  predicate OneMoreRecord(before: Ledger, after: Ledger) {
    after.items != [] && after == Extend(before, Last(after.items))
  }

  /** An accepted journal after one more written record holds what that line decodes to. */
  lemma ReadWhole(digest: Body -> string, base: string, item: Item)
    requires ReadLedger(digest, base).Some? && |base| + |Line(item)| <= MAX_JOURNAL_BYTES
    requires ReadLedger(digest, base + Line(item)).Some?
    ensures OneMoreRecord(ReadLedger(digest, base).value, ReadLedger(digest, base + Line(item)).value)
  {
    hide ReadLedger, Fits, DecodeLine, Print;
    var text := Print(ItemJson(item));
    PrintOneLine(ItemJson(item));
    ReadOneMore(digest, base, text);
    assert base + text + "\n" == base + Line(item);
  }

  lemma ReadIsJournal(digest: Body -> string, text: string)
    requires ReadLedger(digest, text).Some?
    ensures Journal(digest, ReadLedger(digest, text).value.items)
    ensures ReadLedger(digest, text).value == LedgerOf(ReadLedger(digest, text).value.items)
  {
    hide Journal, LedgerOf, Scan;
    ScanIsJournal(digest, SplitLines(text));
  }

  /** What a journal that reads as `led` becomes when the text of `item` is appended but the
      process dies after k bytes: the old records, the old records and the new one, or refused. */
  lemma TornAppend(digest: Body -> string, base: string, item: Item, k: nat)
    requires HexDigests(digest) && ReadLedger(digest, base).Some?
    requires Fits(digest, ReadLedger(digest, base).value, item)
    requires k <= |Line(item)| <= MAX_RECORD_BYTES && |base| + |Line(item)| <= MAX_JOURNAL_BYTES
    ensures ReadLedger(digest, base + Line(item)[..k]) ==
      if k == 0 then ReadLedger(digest, base)
      else if k == |Line(item)| then Some(Extend(ReadLedger(digest, base).value, item))
      else None
  {
    hide ReadLedger, ItemJson, Print, Fits;
    var text := Print(ItemJson(item));
    PrintOneLine(ItemJson(item));
    if k == 0 {
      assert base + Line(item)[..k] == base;
    } else if k == |Line(item)| {
      assert base + Line(item)[..k] == base + Line(item);
      WholeAppend(digest, base, item);
    } else {
      assert Line(item)[..k] == text[..k];
      TornInside(digest, base, text[..k]);
    }
  }

  /** The whole record was appended. */
  lemma WholeAppend(digest: Body -> string, base: string, item: Item)
    requires HexDigests(digest) && ReadLedger(digest, base).Some?
    requires Fits(digest, ReadLedger(digest, base).value, item)
    requires |Line(item)| <= MAX_RECORD_BYTES && |base| + |Line(item)| <= MAX_JOURNAL_BYTES
    ensures ReadLedger(digest, base + Line(item)) == Some(Extend(ReadLedger(digest, base).value, item))
  {
    hide ReadLedger, ItemJson, Print, Fits, DecodeLine, Journal, LedgerOf;
    var led, text := ReadLedger(digest, base).value, Print(ItemJson(item));
    PrintOneLine(ItemJson(item));
    ReadOneMore(digest, base, text);
    assert base + Line(item) == base + text + "\n";
    ReadIsJournal(digest, base);
    AcceptedIsAscii(digest, led.items, item);
    DecodeUndoesLine(item);
  }

  /** Part of a line without its end was appended. */
  lemma TornInside(digest: Body -> string, base: string, part: string)
    requires part != "" && OneLine(part)
    ensures ReadLedger(digest, base + part) == None
  {
    hide Scan, SplitLines;
    var torn := base + part;
    assert torn[|torn| - 1] == part[|part| - 1] != '\n';
  }

  /** A journal that extends another accepted journal keeps its records. */
  lemma RecordsOfPrefix(digest: Body -> string, p: string, t: string)
    requires p <= t && ReadLedger(digest, p).Some? && ReadLedger(digest, t).Some?
    ensures ReadLedger(digest, p).value.items <= ReadLedger(digest, t).value.items
  {
    var x := t[|p|..];
    assert t == p + x;
    SplitConcat(p, x);
    ScanPrefix(digest, SplitLines(t), |SplitLines(p)|);
    assert SplitLines(t)[..|SplitLines(p)|] == SplitLines(p);
  }

  lemma {:induction false} ScanPrefix(digest: Body -> string, lines: seq<string>, n: nat)
    requires n <= |lines| && Scan(digest, lines).Some?
    ensures Scan(digest, lines[..n]).Some?
    ensures Scan(digest, lines[..n]).value.items <= Scan(digest, lines).value.items
    decreases |lines|
  {
    if n == |lines| {
      assert lines[..n] == lines;
    } else {
      var front := lines[..|lines| - 1];
      assert front[..n] == lines[..n];
      ScanPrefix(digest, front, n);
    }
  }
}
