/** How long a record of the guard journal can be: every record the guard can want to write
    fits the limit of one record, as long as its two numbers are not absurdly long. */
module RecordSize {
  import opened Prelude
  import opened CanonicalJson
  import opened GuardJournal

  /** Characters json.dumps leaves as they are. */
  predicate Plain(s: string) {
    forall i | 0 <= i < |s| :: ' ' <= s[i] <= '~' && s[i] != '"' && s[i] != '\\'
  }

  lemma {:induction false} EscapeLength(s: string)
    ensures |Escape(s)| <= 6 * |s|
    ensures Plain(s) ==> |Escape(s)| == |s|
  {
    if s != "" {
      EscapeLength(s[1..]);
    }
  }

  /** The characters of one member with the comma or brace after it. */
  function Size(f: Field): nat { |PrintString(f.key)| + |Print(f.value)| + 2 }

  lemma TextSize(key: string, text: string, bound: nat)
    requires 6 * |key| + 6 + (if Plain(text) then |text| else 6 * |text|) <= bound
    ensures Size(Field(key, JString(text))) <= bound
  {
    EscapeLength(key);
    EscapeLength(text);
  }

  lemma OtherSize(key: string, v: Json, bound: nat)
    requires 6 * |key| + |Print(v)| + 4 <= bound
    ensures Size(Field(key, v)) <= bound
  {
    EscapeLength(key);
  }

  lemma {:induction false} MembersBound(fs: seq<Field>, bound: nat)
    requires fs != [] && forall i | 0 <= i < |fs| :: Size(fs[i]) <= bound
    ensures |PrintMembers(fs)| <= |fs| * bound
  {
    hide PrintString, Print;
    assert Size(fs[0]) <= bound;
    if |fs| > 1 {
      MembersBound(fs[1..], bound);
    }
  }

  lemma {:induction false} MembersConcat(a: seq<Field>, b: seq<Field>)
    requires a != [] && b != []
    ensures |PrintMembers(a + b)| == |PrintMembers(a)| + |PrintMembers(b)|
  {
    hide PrintString, Print;
    assert (a + b)[0] == a[0];
    if |a| == 1 {
      assert (a + b)[1..] == b;
    } else {
      MembersConcat(a[1..], b);
      assert (a + b)[1..] == a[1..] + b;
    }
  }

  /** A number of at most a hundred characters. */
  predicate Short(n: int) { |PrintInt(n)| <= 100 }

  lemma HexIsPlain(s: string, n: nat)
    requires IsHex(s, n)
    ensures Plain(s)
  {
  }

  lemma UuidIsPlain(s: string)
    requires IsUuid(s)
    ensures Plain(s)
  {
  }

  lemma RunIdIsPlain(s: string)
    requires IsRunId(s)
    ensures Plain(s)
  {
  }

  lemma HexSize(key: string, text: string, n: nat, bound: nat)
    requires IsHex(text, n) && 6 * |key| + 6 + n <= bound
    ensures Size(Field(key, JString(text))) <= bound
  {
    HexIsPlain(text, n);
    TextSize(key, text, bound);
  }

  lemma UuidSize(key: string, text: string, bound: nat)
    requires IsUuid(text) && 6 * |key| + 42 <= bound
    ensures Size(Field(key, JString(text))) <= bound
  {
    UuidIsPlain(text);
    TextSize(key, text, bound);
  }

  lemma ContextSize(c: Context)
    requires ValidContext(c) && Short(c.generation)
    ensures |Print(ContextJson(c))| <= 1400
  {
    hide Size, Escape, Print, PrintMembers, IsHex, IsUuid, PrintInt;
    var fs := ContextJson(c).fields;
    HexSize("source_commit", c.sourceCommit, 40, 170);
    HexSize("main_commit", c.mainCommit, 40, 170);
    UuidSize("boot_id", c.bootId, 170);
    UuidSize("operation_id", c.operationId, 170);
    NumberSize("generation", c.generation, 170);
    FlagSize("source_clean", c.sourceClean, 170);
    TextSize("maintenance_status", c.maintenanceStatus, 170);
    if c.SyncBinding? {
      HexSize("local_main_commit", c.localMainCommit, 40, 170);
    }
    MembersBound(fs, 170);
    ObjectSize(fs);
  }

  lemma NumberSize(key: string, n: int, bound: nat)
    requires Short(n) && 6 * |key| + 104 <= bound
    ensures Size(Field(key, JInt(n))) <= bound
  {
    OtherSize(key, JInt(n), bound);
  }

  lemma FlagSize(key: string, b: bool, bound: nat)
    requires 6 * |key| + 9 <= bound
    ensures Size(Field(key, JBool(b))) <= bound
  {
    OtherSize(key, JBool(b), bound);
  }

  lemma ObjectSize(fs: seq<Field>)
    requires fs != []
    ensures |Print(JObject(fs))| == 1 + |PrintMembers(fs)|
  {
  }

  lemma PayloadSize(p: Payload)
    requires match p
      case Intent(id, _, target, binding) =>
        IsUuid(id) && IsHex(target, 40) && ValidContext(binding) && Short(binding.generation)
      case Completion(intent, _, evidence) => IsHex(intent, 64) && IsHex(evidence, 64)
    ensures |Print(PayloadJson(p))| <= 2000
  {
    hide Size, Escape, Print, PrintMembers, IsHex, IsUuid, ValidContext, ContextJson, Short;
    var fs := PayloadJson(p).fields;
    match p {
      case Intent(id, action, target, binding) =>
        ActionSize(action);
        ContextSize(binding);
        OtherSize("binding", ContextJson(binding), 1450);
        UuidSize("request_id", id, 180);
        HexSize("target_commit", target, 40, 180);
        assert fs == fs[..1] + (fs[1..2] + fs[2..]);
        MembersConcat(fs[..1], fs[1..2] + fs[2..]);
        MembersConcat(fs[1..2], fs[2..]);
        MembersBound(fs[..1], 180);
        MembersBound(fs[1..2], 1450);
        MembersBound(fs[2..], 180);
      case Completion(intent, outcome, evidence) =>
        HexSize("evidence_sha256", evidence, 64, 210);
        HexSize("intent_sha256", intent, 64, 210);
        OutcomeSize(outcome);
        MembersBound(fs, 210);
    }
    ObjectSize(fs);
  }

  lemma ActionSize(a: Action)
    ensures Size(Field("action", JString(ActionName(a)))) <= 180
  {
    hide Size, Escape, Print;
    assert |ActionName(a)| <= 22;
    TextSize("action", ActionName(a), 180);
  }

  lemma OutcomeSize(o: Outcome)
    ensures Size(Field("outcome", JString(OutcomeName(o)))) <= 210
  {
    hide Size, Escape, Print;
    assert |OutcomeName(o)| <= 18;
    TextSize("outcome", OutcomeName(o), 210);
  }

  lemma TimeSize(at: string)
    requires IsUtcTime(at)
    ensures Size(Field("at", JString(at))) <= 250
  {
    hide Size, Escape, Print, OnCalendar;
    assert |at| <= 32;
    TextSize("at", at, 250);
  }

  lemma NamesSize(b: Body)
    ensures Size(Field("invocation_type", JString(InvocationName(b.invocation)))) <= 250
    ensures Size(Field("kind", JString(KindOf(b.payload)))) <= 250
  {
    hide Size, Escape, Print;
    assert |InvocationName(b.invocation)| <= 11 && |KindOf(b.payload)| <= 6;
    TextSize("invocation_type", InvocationName(b.invocation), 250);
    TextSize("kind", KindOf(b.payload), 250);
  }

  lemma ConstantsSize()
    ensures Size(Field("schema", JString(SCHEMA))) <= 250
    ensures Size(Field("task_id", JString(TASK_ID))) <= 250
  {
    hide Size, Escape, Print;
    assert |SCHEMA| == 31 && |TASK_ID| == 32;
    TextSize("schema", SCHEMA, 250);
    TextSize("task_id", TASK_ID, 250);
  }

  /** The fields whose length the guard does not choose. */
  predicate Sizable(item: Item) {
    && IsUtcTime(item.body.at) && IsRunId(item.body.runId)
    && IsHex(item.body.previous, 64) && IsHex(item.sha256, 64) && Short(item.body.sequence)
    && match item.body.payload
       case Intent(id, _, target, binding) =>
         IsUuid(id) && IsHex(target, 40) && ValidContext(binding) && Short(binding.generation)
       case Completion(intent, _, evidence) => IsHex(intent, 64) && IsHex(evidence, 64)
  }

  lemma RunIdSize(run: string)
    requires IsRunId(run)
    ensures Size(Field("run_id", JString(run))) <= 250
  {
    hide Size;
    RunIdIsPlain(run);
    TextSize("run_id", run, 250);
  }

  /** The members before the payload, the payload, and the members after it. */
  lemma ItemParts(item: Item) returns (first: seq<Field>, payload: seq<Field>, rest: seq<Field>)
    ensures ItemJson(item) == JObject(first + (payload + rest))
    ensures |first| == 3 && payload == [Field("payload", PayloadJson(item.body.payload))] && |rest| == 6
    ensures first[0] == Field("at", JString(item.body.at))
    ensures first[1] == Field("invocation_type", JString(InvocationName(item.body.invocation)))
    ensures first[2] == Field("kind", JString(KindOf(item.body.payload)))
    ensures rest[0] == Field("previous", JString(item.body.previous))
    ensures rest[1] == Field("run_id", JString(item.body.runId))
    ensures rest[2] == Field("schema", JString(SCHEMA))
    ensures rest[3] == Field("sequence", JInt(item.body.sequence))
    ensures rest[4] == Field("sha256", JString(item.sha256))
    ensures rest[5] == Field("task_id", JString(TASK_ID))
  {
    first, payload := HeadFields(item.body)[..3], HeadFields(item.body)[3..4];
    rest := HeadFields(item.body)[4..] + [Field("sha256", JString(item.sha256))] + TailFields();
    assert first + payload + HeadFields(item.body)[4..] == HeadFields(item.body);
  }

  /** No record needs much more than half of what one record may take. */
  lemma RecordFits(item: Item)
    requires Sizable(item)
    ensures |Line(item)| <= 4400 < MAX_RECORD_BYTES
  {
    hide Size, Print, PrintMembers, PayloadJson, ItemJson, HeadFields, TailFields;
    hide Short, ValidContext, InvocationName, KindOf, IsHex, IsUuid, IsUtcTime, IsRunId;
    var first, payload, rest := ItemParts(item);
    TimeSize(item.body.at);
    NamesSize(item.body);
    ConstantsSize();
    RunIdSize(item.body.runId);
    HexSize("previous", item.body.previous, 64, 250);
    NumberSize("sequence", item.body.sequence, 250);
    HexSize("sha256", item.sha256, 64, 250);
    PayloadSize(item.body.payload);
    OtherSize("payload", PayloadJson(item.body.payload), 2050);
    MembersBound(first, 250);
    MembersBound(payload, 2050);
    MembersBound(rest, 250);
    MembersConcat(first, payload + rest);
    MembersConcat(payload, rest);
    ObjectSize(first + (payload + rest));
  }

  // ----- the number of a record -----

  function PowerOfTen(k: nat): nat { if k == 0 then 1 else 10 * PowerOfTen(k - 1) }

  lemma {:induction false} DigitCount(n: nat, k: nat)
    requires 0 < k && n < PowerOfTen(k)
    ensures |PrintNat(n)| <= k
  {
    if n >= 10 {
      DigitCount(n / 10, k - 1);
    }
  }

  /** A journal has no more lines than characters. */
  lemma {:induction false} LinesWithin(t: string)
    ensures |SplitLines(t)| <= |t|
    decreases |t|
  {
    if t != "" && LineLength(t) < |t| {
      LinesWithin(t[NextLine(t, LineLength(t))..]);
    }
  }

  lemma {:induction false} ItemsAreLines(digest: Body -> string, lines: seq<string>)
    requires Scan(digest, lines).Some?
    ensures |Scan(digest, lines).value.items| == |lines|
    decreases |lines|
  {
    hide ParseRecord, Fits;
    if lines != [] {
      ItemsAreLines(digest, lines[..|lines| - 1]);
    }
  }

  lemma NumbersAreShort(digest: Body -> string, text: string, n: nat)
    requires ReadLedger(digest, text).Some? && n <= |ReadLedger(digest, text).value.items| + 2
    ensures Short(n)
  {
    hide Scan, SplitLines, PrintNat;
    ItemsAreLines(digest, SplitLines(text));
    LinesWithin(text);
    assert PowerOfTen(7) == 10_000_000;
    DigitCount(n, 7);
  }
}
