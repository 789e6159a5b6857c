/** The hash-chained intent/result journal of scripts/security/fr06_execution_guard.py:
    its records, their text, and the reader that accepts or refuses a whole file. */
module GuardJournal {
  import opened Prelude
  import opened CanonicalJson

  const SCHEMA := "aionex.fr06-exclusive-effect.v1"
  const TASK_ID := "6abd4c859254819191f562715e18c916"
  const MAX_JOURNAL_BYTES := 2 * 1024 * 1024
  const MAX_RECORD_BYTES := 8192

  // ----- closed vocabularies -----

  datatype Invocation = Interactive | Scheduled | Watchdog

  datatype Action = SourceMerge | SourceSync | ServiceLifecycle | MaintenanceTransition
    | ProviderSettlement | HostState | MemoryActivation | RebootRecovery

  datatype Outcome = ObservedComplete | ObservedNoEffect

  function InvocationName(i: Invocation): string {
    match i
    case Interactive => "interactive"
    case Scheduled => "scheduled"
    case Watchdog => "watchdog"
  }

  function ActionName(a: Action): string {
    match a
    case SourceMerge => "source_merge"
    case SourceSync => "source_sync"
    case ServiceLifecycle => "service_lifecycle"
    case MaintenanceTransition => "maintenance_transition"
    case ProviderSettlement => "provider_settlement"
    case HostState => "host_state"
    case MemoryActivation => "memory_activation"
    case RebootRecovery => "reboot_recovery"
  }

  function OutcomeName(o: Outcome): string {
    match o
    case ObservedComplete => "observed_complete"
    case ObservedNoEffect => "observed_no_effect"
  }

  function InvocationOf(s: string): Option<Invocation> {
    if s == "interactive" then Some(Interactive)
    else if s == "scheduled" then Some(Scheduled)
    else if s == "watchdog" then Some(Watchdog)
    else None
  }

  function ActionOf(s: string): Option<Action> {
    if s == "source_merge" then Some(SourceMerge)
    else if s == "source_sync" then Some(SourceSync)
    else if s == "service_lifecycle" then Some(ServiceLifecycle)
    else if s == "maintenance_transition" then Some(MaintenanceTransition)
    else if s == "provider_settlement" then Some(ProviderSettlement)
    else if s == "host_state" then Some(HostState)
    else if s == "memory_activation" then Some(MemoryActivation)
    else if s == "reboot_recovery" then Some(RebootRecovery)
    else None
  }

  function OutcomeOf(s: string): Option<Outcome> {
    if s == "observed_complete" then Some(ObservedComplete)
    else if s == "observed_no_effect" then Some(ObservedNoEffect)
    else None
  }

  // ----- identities -----

  predicate HexChar(c: char) { '0' <= c <= '9' || 'a' <= c <= 'f' }

  predicate IsHex(s: string, size: nat) {
    |s| == size && forall i | 0 <= i < |s| :: HexChar(s[i])
  }

  /** The canonical text of a UUID. */
  predicate IsUuid(s: string) {
    && |s| == 36
    && forall i | 0 <= i < |s| :: if i in {8, 13, 18, 23} then s[i] == '-' else HexChar(s[i])
  }

  predicate NameChar(c: char) {
    '0' <= c <= '9' || 'A' <= c <= 'Z' || 'a' <= c <= 'z' || c == '_' || c == '-'
  }

  predicate IsRunId(s: string) {
    1 <= |s| <= 120 && forall i | 0 <= i < |s| :: NameChar(s[i])
  }

  /** A text datetime.now(timezone.utc).isoformat() can produce: a digit wherever the
      pattern has a 0, with or without microseconds, and a date and a time that exist. */
  predicate IsUtcTime(s: string) {
    && (Matches(s, "0000-00-00T00:00:00+00:00") || Matches(s, "0000-00-00T00:00:00.000000+00:00"))
    && OnCalendar(s)
  }

  /** The two digits of s from i on, as a number. */
  function TwoDigits(s: string, i: nat): int
    requires i + 1 < |s|
  {
    (s[i] as int - '0' as int) * 10 + (s[i + 1] as int - '0' as int)
  }

  predicate OnCalendar(s: string)
    requires |s| >= 19
  {
    var year, month, day := TwoDigits(s, 0) * 100 + TwoDigits(s, 2), TwoDigits(s, 5), TwoDigits(s, 8);
    && 1 <= year && 1 <= month <= 12 && 1 <= day <= DaysIn(year, month)
    && TwoDigits(s, 11) <= 23 && TwoDigits(s, 14) <= 59 && TwoDigits(s, 17) <= 59
  }

  function DaysIn(year: int, month: int): int {
    if month == 2 then if LeapYear(year) then 29 else 28
    else if month in {4, 6, 9, 11} then 30
    else 31
  }

  predicate LeapYear(year: int) {
    year % 4 == 0 && (year % 100 != 0 || year % 400 == 0)
  }

  predicate Matches(s: string, pattern: string) {
    && |s| == |pattern|
    && (forall i | 0 <= i < |s| - 6 :: if pattern[i] == '0' then Digit(s[i]) else s[i] == pattern[i])
    && (|s| >= 6 ==> s[|s| - 6..] == pattern[|s| - 6..])
  }

  // ----- contexts -----

  datatype Context =
    | Binding(sourceCommit: string, mainCommit: string, bootId: string, operationId: string,
              generation: int, sourceClean: bool, maintenanceStatus: string)
    | SyncBinding(sourceCommit: string, localMainCommit: string, mainCommit: string, bootId: string,
                  operationId: string, generation: int, sourceClean: bool, maintenanceStatus: string)

  /** The local main commit the source tree must match. */
  function OwnMain(c: Context): string {
    if c.SyncBinding? then c.localMainCommit else c.mainCommit
  }

  predicate ValidContext(c: Context) {
    && IsHex(c.sourceCommit, 40) && c.sourceCommit == OwnMain(c)
    && c.sourceClean
    && IsUuid(c.bootId) && IsUuid(c.operationId)
    && c.generation >= 8
    && c.maintenanceStatus == "closed"
    && (c.SyncBinding? ==> IsHex(c.mainCommit, 40))
  }

  /** A sync context admits only the exact fast-forward to its remote main. */
  predicate ActionAdmits(c: Context, action: Action, target: string) {
    c.SyncBinding? ==> action == SourceSync && target == c.mainCommit
  }

  // ----- records -----

  datatype Payload =
    | Intent(requestId: string, action: Action, targetCommit: string, binding: Context)
    | Completion(intentSha256: string, outcome: Outcome, evidenceSha256: string)

  /** A record without its digest; schema and task identity are the same in every record. */
  datatype Body = Body(at: string, invocation: Invocation, payload: Payload, previous: string,
                       runId: string, sequence: int)

  datatype Item = Item(body: Body, sha256: string)

  function KindOf(p: Payload): string { if p.Intent? then "intent" else "result" }

  function ContextJson(c: Context): Json {
    match c
    case Binding(source, main, boot, operation, generation, clean, maintenance) =>
      JObject([Field("boot_id", JString(boot)), Field("generation", JInt(generation)),
               Field("main_commit", JString(main)), Field("maintenance_status", JString(maintenance)),
               Field("operation_id", JString(operation)), Field("source_clean", JBool(clean)),
               Field("source_commit", JString(source))])
    case SyncBinding(source, local, main, boot, operation, generation, clean, maintenance) =>
      JObject([Field("boot_id", JString(boot)), Field("generation", JInt(generation)),
               Field("local_main_commit", JString(local)), Field("main_commit", JString(main)),
               Field("maintenance_status", JString(maintenance)), Field("operation_id", JString(operation)),
               Field("source_clean", JBool(clean)), Field("source_commit", JString(source))])
  }

  function PayloadJson(p: Payload): Json {
    match p
    case Intent(id, action, target, binding) =>
      JObject([Field("action", JString(ActionName(action))), Field("binding", ContextJson(binding)),
               Field("request_id", JString(id)), Field("target_commit", JString(target))])
    case Completion(intent, outcome, evidence) =>
      JObject([Field("evidence_sha256", JString(evidence)), Field("intent_sha256", JString(intent)),
               Field("outcome", JString(OutcomeName(outcome)))])
  }

  /** The fields before and after the place where sorting puts "sha256". */
  function HeadFields(b: Body): seq<Field> {
    [Field("at", JString(b.at)), Field("invocation_type", JString(InvocationName(b.invocation))),
     Field("kind", JString(KindOf(b.payload))), Field("payload", PayloadJson(b.payload)),
     Field("previous", JString(b.previous)), Field("run_id", JString(b.runId)),
     Field("schema", JString(SCHEMA)), Field("sequence", JInt(b.sequence))]
  }

  function TailFields(): seq<Field> { [Field("task_id", JString(TASK_ID))] }

  function BodyJson(b: Body): Json { JObject(HeadFields(b) + TailFields()) }

  function ItemJson(item: Item): Json {
    JObject(HeadFields(item.body) + [Field("sha256", JString(item.sha256))] + TailFields())
  }

  function Line(item: Item): string { Print(ItemJson(item)) + "\n" }

  /** The text whose SHA-256 a record carries. */
  function DigestedText(b: Body): string { Print(BodyJson(b)) }

  // ----- decoding one line -----

  /** The value of the only field with this key.  An object with as many fields as expected
      keys, each of them present, has exactly these keys and none twice. */
  function Lookup(fs: seq<Field>, key: string): Option<Json> {
    if fs == [] then None
    else if fs[0].key == key then Some(fs[0].value)
    else Lookup(fs[1..], key)
  }

  function Text(fs: seq<Field>, key: string): Option<string> {
    match Lookup(fs, key)
    case Some(JString(s)) => Some(s)
    case _ => None
  }

  function Whole(fs: seq<Field>, key: string): Option<int> {
    match Lookup(fs, key)
    case Some(JInt(n)) => Some(n)
    case _ => None
  }

  function Flag(fs: seq<Field>, key: string): Option<bool> {
    match Lookup(fs, key)
    case Some(JBool(b)) => Some(b)
    case _ => None
  }

  function Object(fs: seq<Field>, key: string): Option<seq<Field>> {
    match Lookup(fs, key)
    case Some(JObject(inner)) => Some(inner)
    case _ => None
  }

  function ActionAt(fs: seq<Field>): Option<Action> {
    match Text(fs, "action")
    case Some(s) => ActionOf(s)
    case None => None
  }

  function OutcomeAt(fs: seq<Field>): Option<Outcome> {
    match Text(fs, "outcome")
    case Some(s) => OutcomeOf(s)
    case None => None
  }

  function InvocationAt(fs: seq<Field>): Option<Invocation> {
    match Text(fs, "invocation_type")
    case Some(s) => InvocationOf(s)
    case None => None
  }

  function ContextOf(fs: seq<Field>): Option<Context> {
    match (Text(fs, "source_commit"), Text(fs, "main_commit"), Text(fs, "boot_id"),
           Text(fs, "operation_id"), Whole(fs, "generation"), Flag(fs, "source_clean"),
           Text(fs, "maintenance_status"))
    case (Some(source), Some(main), Some(boot), Some(operation), Some(generation), Some(clean), Some(maintenance)) =>
      if |fs| == 7 then Some(Binding(source, main, boot, operation, generation, clean, maintenance))
      else (match Text(fs, "local_main_commit")
            case Some(local) =>
              if |fs| == 8
              then Some(SyncBinding(source, local, main, boot, operation, generation, clean, maintenance))
              else None
            case None => None)
    case _ => None
  }

  function PayloadOf(kind: string, fs: seq<Field>): Option<Payload> {
    if kind == "intent" then
      match (Text(fs, "request_id"), ActionAt(fs), Text(fs, "target_commit"), Object(fs, "binding"))
      case (Some(id), Some(action), Some(target), Some(binding)) =>
        (match ContextOf(binding)
         case Some(c) => if |fs| == 4 then Some(Intent(id, action, target, c)) else None
         case None => None)
      case _ => None
    else if kind == "result" then
      match (Text(fs, "intent_sha256"), OutcomeAt(fs), Text(fs, "evidence_sha256"))
      case (Some(intent), Some(outcome), Some(evidence)) =>
        if |fs| == 3 then Some(Completion(intent, outcome, evidence)) else None
      case _ => None
    else None
  }

  function ItemOf(fs: seq<Field>): Option<Item> {
    match (Text(fs, "at"), InvocationAt(fs), Text(fs, "kind"), Object(fs, "payload"),
           Text(fs, "previous"), Text(fs, "run_id"), Text(fs, "schema"), Whole(fs, "sequence"),
           Text(fs, "sha256"), Text(fs, "task_id"))
    case (Some(at), Some(invocation), Some(kind), Some(payload), Some(previous), Some(run), Some(schema),
          Some(sequence), Some(sha), Some(task)) =>
      (match PayloadOf(kind, payload)
       case Some(p) =>
         if |fs| == 10 && schema == SCHEMA && task == TASK_ID
         then Some(Item(Body(at, invocation, p, previous, run, sequence), sha)) else None
       case None => None)
    case _ => None
  }

  function DecodeLine(line: string): Option<Item> {
    match Loads(line)
    case Some(JObject(fs)) => ItemOf(fs)
    case _ => None
  }

  function ParseRecord(line: string): Option<Item> {
    if 0 < |line| <= MAX_RECORD_BYTES then DecodeLine(line) else None
  }

  // ----- the ledger -----

  /** What the reader knows after some accepted records. */
  datatype Ledger = Ledger(items: seq<Item>, pending: Option<Item>, used: set<string>)

  const EMPTY := Ledger([], None, {})

  /** The digest the first record names: sixty-four zeros. */
  function Genesis(): (s: string)
    ensures IsHex(s, 64)
  {
    seq(64, _ => '0')
  }

  function Previous(items: seq<Item>): string {
    if items == [] then Genesis() else items[|items| - 1].sha256
  }

  predicate Owned(digest: Body -> string, item: Item) {
    && item.sha256 == digest(item.body)
    && IsRunId(item.body.runId)
    && IsUtcTime(item.body.at)
  }

  predicate IntentFits(pending: Option<Item>, used: set<string>, p: Payload)
    requires p.Intent?
  {
    && pending == None
    && IsUuid(p.requestId) && p.requestId !in used
    && IsHex(p.targetCommit, 40)
    && ValidContext(p.binding) && ActionAdmits(p.binding, p.action, p.targetCommit)
  }

  predicate CompletionFits(pending: Option<Item>, body: Body)
    requires body.payload.Completion?
  {
    && pending.Some?
    && body.payload.intentSha256 == pending.value.sha256
    && body.runId == pending.value.body.runId
    && body.invocation == pending.value.body.invocation
    && IsHex(body.payload.evidenceSha256, 64)
  }

  /** The checks on one record, given its number and what the earlier ones left. */
  predicate Accepted(digest: Body -> string, number: int, previous: string, pending: Option<Item>,
                     used: set<string>, item: Item) {
    && item.body.sequence == number
    && item.body.previous == previous
    && Owned(digest, item)
    && if item.body.payload.Intent? then IntentFits(pending, used, item.body.payload)
       else CompletionFits(pending, item.body)
  }

  predicate Fits(digest: Body -> string, led: Ledger, item: Item) {
    Accepted(digest, |led.items| + 1, Previous(led.items), led.pending, led.used, item)
  }

  function Extend(led: Ledger, item: Item): Ledger {
    if item.body.payload.Intent?
    then Ledger(led.items + [item], Some(item), led.used + {item.body.payload.requestId})
    else Ledger(led.items + [item], None, led.used)
  }

  /** The ledger after reading one more line, or None when the reader refuses it. */
  function ReadLine(digest: Body -> string, led: Ledger, line: string): Option<Ledger> {
    match ParseRecord(line)
      case None => None
      case Some(item) => if Fits(digest, led, item) then Some(Extend(led, item)) else None
  }

  function Scan(digest: Body -> string, lines: seq<string>): Option<Ledger> {
    if lines == [] then Some(EMPTY)
    else match Scan(digest, lines[..|lines| - 1])
      case None => None
      case Some(led) => ReadLine(digest, led, lines[|lines| - 1])
  }

  /** bytes.splitlines: a line ends at LF, CR or CR LF. */
  function LineLength(t: string): (n: nat)
    ensures n <= |t|
    ensures OneLine(t[..n])
    ensures n < |t| ==> t[n] == '\n' || t[n] == '\r'
  {
    if t == "" || t[0] == '\n' || t[0] == '\r' then 0 else 1 + LineLength(t[1..])
  }

  /** Where the line after the one that ends at n begins. */
  function NextLine(t: string, n: nat): (next: nat)
    requires n < |t|
    ensures n < next <= |t|
  {
    if t[n] == '\r' && n + 1 < |t| && t[n + 1] == '\n' then n + 2 else n + 1
  }

  function SplitLines(t: string): seq<string> {
    if t == "" then []
    else
      var n := LineLength(t);
      if n == |t| then [t] else [t[..n]] + SplitLines(t[NextLine(t, n)..])
  }

  predicate Terminated(t: string) { t == "" || t[|t| - 1] == '\n' }

  /** The reader of a whole journal: None when it refuses the file. */
  function ReadLedger(digest: Body -> string, text: string): Option<Ledger> {
    if |text| > MAX_JOURNAL_BYTES || !Terminated(text) then None
    else Scan(digest, SplitLines(text))
  }

  /** The loop of the reader, line by line, keeping the last digest, the open intent and
      the request identities it has seen. */
  method ReadRecords(digest: Body -> string, text: string) returns (r: Option<Ledger>)
    ensures r == ReadLedger(digest, text)
  {
    if |text| > MAX_JOURNAL_BYTES || !Terminated(text) {
      return None;
    }
    hide Scan, ReadLine, ParseRecord, Accepted, SplitLines, Terminated;
    var lines := SplitLines(text);
    var records: seq<Item>, previous, pending: Option<Item>, used: set<string> := [], Genesis(), None, {};
    var number := 0;
    NothingRead(digest, lines);
    while number < |lines|
      invariant 0 <= number <= |lines|
      invariant Scan(digest, lines[..number]) == Some(Ledger(records, pending, used)) && |records| == number
      invariant previous == Previous(records)
    {
      ghost var led := Ledger(records, pending, used);
      var item := ParseRecord(lines[number]);
      if item == None || !Accepted(digest, number + 1, previous, pending, used, item.value) {
        LineRefused(digest, lines, number, led);
        return None;
      }
      LineRead(digest, lines, number, led, item.value);
      if item.value.body.payload.Intent? {
        pending, used := Some(item.value), used + {item.value.body.payload.requestId};
      } else {
        pending := None;
      }
      records, previous := records + [item.value], item.value.sha256;
      number := number + 1;
    }
    assert lines[..number] == lines;
    return Some(Ledger(records, pending, used));
  }

  lemma NothingRead(digest: Body -> string, lines: seq<string>)
    ensures Scan(digest, lines[..0]) == Some(Ledger([], None, {}))
  {
    assert lines[..0] == [];
  }

  /** A line the reader accepts takes the scan one record further. */
  lemma LineRead(digest: Body -> string, lines: seq<string>, n: nat, led: Ledger, item: Item)
    requires n < |lines| && Scan(digest, lines[..n]) == Some(led) && ParseRecord(lines[n]) == Some(item)
    requires Accepted(digest, |led.items| + 1, Previous(led.items), led.pending, led.used, item)
    ensures Scan(digest, lines[..n + 1]) == Some(Extend(led, item))
    ensures Previous(Extend(led, item).items) == item.sha256
  {
    hide Scan, ParseRecord, Accepted;
    ScanStep(digest, lines, n);
    assert Fits(digest, led, item);
  }

  /** A line the reader refuses makes the whole scan fail. */
  lemma LineRefused(digest: Body -> string, lines: seq<string>, n: nat, led: Ledger)
    requires n < |lines| && Scan(digest, lines[..n]) == Some(led)
    requires ParseRecord(lines[n]).Some? ==>
      !Accepted(digest, |led.items| + 1, Previous(led.items), led.pending, led.used, ParseRecord(lines[n]).value)
    ensures Scan(digest, lines) == None
  {
    hide Scan, ParseRecord, Accepted;
    ScanStep(digest, lines, n);
    ScanRefused(digest, lines, n + 1);
  }

  lemma ScanStep(digest: Body -> string, lines: seq<string>, n: nat)
    requires n < |lines| && Scan(digest, lines[..n]).Some?
    ensures Scan(digest, lines[..n + 1]) == ReadLine(digest, Scan(digest, lines[..n]).value, lines[n])
  {
    hide ReadLine;
    assert lines[..n + 1][..n] == lines[..n];
  }

  lemma {:induction false} ScanRefused(digest: Body -> string, lines: seq<string>, n: nat)
    requires n <= |lines| && Scan(digest, lines[..n]) == None
    ensures Scan(digest, lines) == None
    decreases |lines|
  {
    hide ReadLine;
    if n == |lines| {
      assert lines[..n] == lines;
    } else {
      var front := lines[..|lines| - 1];
      assert front[..n] == lines[..n];
      ScanRefused(digest, front, n);
    }
  }
}
