/** Progress of the guard: a perform that nobody interrupts goes through, whatever happened
    before, as long as the journal has no open intent, an unused identity and room. */
module GuardProgress {
  import CanonicalJson
  import opened Prelude
  import opened GuardJournal
  import opened GuardJournalFacts
  import opened GuardRuns
  import opened RecordSize

  /** The pc after a record was read back. */
  function AfterReadBack(pc: Pc): Pc
    requires pc.Appending?
  {
    if pc.answers == None then Announced(pc.call, pc.item, pc.base) else Idle
  }

  function DurableEvent(p: nat, pc: Pc): Event
    requires pc.Appending?
  {
    if pc.answers == None then IntentDurable(p, pc.item) else ResultDurable(p, pc.item)
  }

  lemma LineNotEmpty(item: Item)
    ensures |Line(item)| > 0
  {
  }

  /** An acceptable record is read back as the last one. */
  lemma WrittenReadsBack(w: World, base: string, item: Item)
    requires HexDigests(w.digest) && ReadLedger(w.digest, base).Some?
    requires Fits(w.digest, ReadLedger(w.digest, base).value, item) && Room(base, item)
    ensures ReadLedger(w.digest, base + Line(item)) == Some(Extend(ReadLedger(w.digest, base).value, item))
  {
    hide ReadLedger, Fits, Line;
    TornAppend(w.digest, base, item, |Line(item)|);
    LineNotEmpty(item);
    assert Line(item)[..|Line(item)|] == Line(item);
  }

  lemma LastOfExtend(led: Ledger, item: Item)
    ensures Extend(led, item).items == led.items + [item] && Last(Extend(led, item).items) == item
  {
  }

  /** Writing, flushing and reading back one acceptable record. */
  lemma WriteThrough(w: World, s: State, p: nat) returns (t: State)
    requires HexDigests(w.digest) && PcOf(s, p).Appending? && s.disk == PcOf(s, p).base
    requires PcOf(s, p).left == Line(PcOf(s, p).item) && ReadLedger(w.digest, s.disk).Some?
    requires Fits(w.digest, ReadLedger(w.digest, s.disk).value, PcOf(s, p).item) && Room(s.disk, PcOf(s, p).item)
    ensures Reaches(w, s, [Write(p, |Line(PcOf(s, p).item)|), Flush(p), ReadBack(p)], t)
    ensures t.disk == s.disk + Line(PcOf(s, p).item) && t.synced == |t.disk|
    ensures PcOf(t, p) == AfterReadBack(PcOf(s, p))
    ensures t.trace == s.trace + [DurableEvent(p, PcOf(s, p))]
    ensures ReadLedger(w.digest, t.disk) == Some(Extend(ReadLedger(w.digest, s.disk).value, PcOf(s, p).item))
  {
    hide ReadLedger, Fits, Line, Room;
    var pc := PcOf(s, p);
    var line := Line(pc.item);
    LineNotEmpty(pc.item);
    WrittenReadsBack(w, s.disk, pc.item);
    LastOfExtend(ReadLedger(w.digest, s.disk).value, pc.item);
    assert line[..|line|] == line && line[|line|..] == "" && s.trace + [] == s.trace;
    var s1 := Apply(w, s, Write(p, |line|));
    var s2 := Apply(w, s1, Flush(p));
    assert s2.disk == s.disk + line && PcOf(s2, p) == Flushed(pc.call, pc.item, pc.answers, pc.base);
    t := Apply(w, s2, ReadBack(p));
    ThreeSteps(w, s, Write(p, |line|), Flush(p), ReadBack(p));
  }

  lemma ThreeSteps(w: World, s: State, a: Step, b: Step, c: Step)
    requires Enabled(w, s, a) && Enabled(w, Apply(w, s, a), b) && Enabled(w, Apply(w, Apply(w, s, a), b), c)
    ensures Reaches(w, s, [a, b, c], Apply(w, Apply(w, Apply(w, s, a), b), c))
  {
    hide Enabled, Apply;
    ReachesStart(w, s);
    ReachesMore(w, s, [], s, a);
    ReachesMore(w, s, [a], Apply(w, s, a), b);
    ReachesMore(w, s, [a, b], Apply(w, Apply(w, s, a), b), c);
    assert [] + [a] == [a] && [a] + [b] == [a, b] && [a, b] + [c] == [a, b, c];
  }

  lemma {:induction false} ReachesThen(w: World, s: State, a: seq<Step>, t: State, b: seq<Step>, u: State)
    requires Reaches(w, s, a, t) && Reaches(w, t, b, u)
    ensures Reaches(w, s, a + b, u)
    decreases |a|
  {
    hide Enabled, Apply;
    if a == [] {
      assert a + b == b;
    } else {
      ReachesThen(w, Apply(w, s, a[0]), a[1..], t, b, u);
      assert (a + b)[0] == a[0] && (a + b)[1..] == a[1..] + b;
    }
  }

  lemma IntentIsAcceptable(w: World, p: nat, s: State, call: Call, at: string, id: string)
    requires ValidWorld(w) && Enabled(w, s, Begin(p, call, at, id))
    requires id !in ReadLedger(w.digest, s.disk).value.used
    ensures Fits(w.digest, ReadLedger(w.digest, s.disk).value, IntentRecord(w, p, s.disk, call, at, id))
  {
    hide ReadLedger, Line;
  }

  lemma ResultIsAcceptable(w: World, p: nat, disk: string, intent: Item, at: string, outcome: Outcome, evidence: string)
    requires ValidWorld(w) && ReadLedger(w.digest, disk).Some?
    requires ReadLedger(w.digest, disk).value.pending == Some(intent)
    requires intent.body.runId == w.who(p).runId && intent.body.invocation == w.who(p).invocation
    requires IsHex(evidence, 64) && IsUtcTime(at)
    ensures Fits(w.digest, ReadLedger(w.digest, disk).value, ResultRecord(w, p, disk, intent, at, outcome, evidence))
  {
    hide ReadLedger, IsUtcTime, IsHex;
  }

  lemma TakeOne(w: World, s: State, step: Step)
    requires Enabled(w, s, step)
    ensures Reaches(w, s, [step], Apply(w, s, step))
  {
    hide Enabled, Apply;
    ReachesStart(w, s);
    ReachesMore(w, s, [], s, step);
    assert [] + [step] == [step];
  }

  lemma TakeBegin(w: World, s: State, p: nat, call: Call, at: string, id: string) returns (t: State)
    requires Enabled(w, s, Begin(p, call, at, id))
    ensures Reaches(w, s, [Begin(p, call, at, id)], t)
    ensures var intent := IntentRecord(w, p, s.disk, call, at, id);
      && PcOf(t, p) == Appending(call, intent, None, s.disk, Line(intent)) && t.disk == s.disk
      && t.trace == s.trace + [Observed(p, call.expected)]
  {
    hide ReadLedger, Line, Reaches, Room, ValidCall, IntentRecord;
    TakeOne(w, s, Begin(p, call, at, id));
    t := Apply(w, s, Begin(p, call, at, id));
  }

  lemma TakeInvoke(w: World, s: State, p: nat) returns (t: State)
    requires PcOf(s, p).Announced?
    ensures Reaches(w, s, [Confirm(p), Invoke(p)], t)
    ensures var pc := PcOf(s, p);
      && PcOf(t, p) == Returned(pc.call, pc.intent) && t.disk == s.disk && t.synced == s.synced
      && t.trace == s.trace + [Observed(p, pc.call.expected)] + [Invoked(p, pc.call, pc.intent, pc.base, s.disk)]
  {
    hide Reaches;
    var s1 := Apply(w, s, Confirm(p));
    TakeOne(w, s, Confirm(p));
    TakeOne(w, s1, Invoke(p));
    t := Apply(w, s1, Invoke(p));
    ReachesThen(w, s, [Confirm(p)], s1, [Invoke(p)], t);
    assert [Confirm(p)] + [Invoke(p)] == [Confirm(p), Invoke(p)];
  }

  lemma TakeFinish(w: World, s: State, p: nat, outcome: Outcome, evidence: string, at: string) returns (t: State)
    requires Enabled(w, s, Finish(p, outcome, evidence, at))
    ensures Reaches(w, s, [Finish(p, outcome, evidence, at)], t)
    ensures var result := ResultRecord(w, p, s.disk, PcOf(s, p).intent, at, outcome, evidence);
      && PcOf(t, p) == Appending(PcOf(s, p).call, result, Some(PcOf(s, p).intent), s.disk, Line(result))
      && t.disk == s.disk && t.trace == s.trace
  {
    hide ReadLedger, Line, Reaches, Room, ResultRecord, IsHex, IsUtcTime;
    TakeOne(w, s, Finish(p, outcome, evidence, at));
    t := Apply(w, s, Finish(p, outcome, evidence, at));
    assert s.trace + [] == s.trace;
  }

  /** The steps up to and with the callback. */
  lemma UndisturbedInvocation(w: World, s: State, p: nat, call: Call, at: string, id: string)
      returns (steps: seq<Step>, t: State)
    requires ValidWorld(w) && Enabled(w, s, Begin(p, call, at, id))
    requires id !in ReadLedger(w.digest, s.disk).value.used
    ensures Reaches(w, s, steps, t)
    ensures var intent := IntentRecord(w, p, s.disk, call, at, id);
      && PcOf(t, p) == Returned(call, intent) && t.disk == s.disk + Line(intent) && t.synced == |t.disk|
      && ReadLedger(w.digest, t.disk) == Some(Extend(ReadLedger(w.digest, s.disk).value, intent))
      && t.trace == s.trace + Undisturbed(p, call, intent, s.disk)
  {
    hide ReadLedger, Fits, Line, Room, Reaches, Enabled, Apply, IntentRecord, ValidWorld, ValidCall;
    BeginIsEnabled(w, s, p, call, at, id);
    IntentIsAcceptable(w, p, s, call, at, id);
    DigestsAreHex(w);
    var intent := IntentRecord(w, p, s.disk, call, at, id);
    var s1 := TakeBegin(w, s, p, call, at, id);
    var s2 := WriteThrough(w, s1, p);
    t := TakeInvoke(w, s2, p);
    var writing, calling := [Write(p, |Line(intent)|), Flush(p), ReadBack(p)], [Confirm(p), Invoke(p)];
    ReachesThen(w, s, [Begin(p, call, at, id)], s1, writing, s2);
    ReachesThen(w, s, [Begin(p, call, at, id)] + writing, s2, calling, t);
    steps := [Begin(p, call, at, id)] + writing + calling;
  }

  /** What happens up to and with the callback when nothing intervenes. */
  function Undisturbed(p: nat, call: Call, intent: Item, base: string): seq<Event> {
    [Observed(p, call.expected), IntentDurable(p, intent), Observed(p, call.expected),
     Invoked(p, call, intent, base, base + Line(intent))]
  }

  lemma DigestsAreHex(w: World)
    requires ValidWorld(w)
    ensures HexDigests(w.digest)
  {
  }

  lemma BeginIsEnabled(w: World, s: State, p: nat, call: Call, at: string, id: string)
    requires Enabled(w, s, Begin(p, call, at, id))
    ensures ReadLedger(w.digest, s.disk).Some? && Room(s.disk, IntentRecord(w, p, s.disk, call, at, id))
  {
  }

  /** The result record that answers a new intent. */
  function AnswerTo(w: World, s: State, p: nat, intent: Item, outcome: Outcome, evidence: string, at: string): Item
    requires ReadLedger(w.digest, s.disk).Some?
  {
    Record(w, p, ReadLedger(w.digest, s.disk).value.items + [intent], at, Completion(intent.sha256, outcome, evidence))
  }

  /** From any state in which an instance may begin with an unused identity and there is room for
      the result, the instance alone can finish: exactly intent and result are appended and
      flushed, the journal has no open intent, and the callback ran once in between. */
  lemma UndisturbedPerform(w: World, s: State, p: nat, call: Call, at: string, id: string,
                           outcome: Outcome, evidence: string, later: string) returns (steps: seq<Step>, t: State)
    requires ValidWorld(w) && Enabled(w, s, Begin(p, call, at, id))
    requires id !in ReadLedger(w.digest, s.disk).value.used && IsHex(evidence, 64) && IsUtcTime(later)
    requires var intent := IntentRecord(w, p, s.disk, call, at, id);
      Room(s.disk + Line(intent), AnswerTo(w, s, p, intent, outcome, evidence, later))
    ensures Reaches(w, s, steps, t) && PcOf(t, p) == Idle
    ensures var intent := IntentRecord(w, p, s.disk, call, at, id);
      var result := AnswerTo(w, s, p, intent, outcome, evidence, later);
      && t.disk == s.disk + Line(intent) + Line(result) && t.synced == |t.disk|
      && ReadLedger(w.digest, t.disk) == Some(Extend(Extend(ReadLedger(w.digest, s.disk).value, intent), result))
      && t.trace == s.trace + Undisturbed(p, call, intent, s.disk) + [ResultDurable(p, result)]
  {
    var intent := IntentRecord(w, p, s.disk, call, at, id);
    var result := AnswerTo(w, s, p, intent, outcome, evidence, later);
    var s1;
    steps, s1 := UndisturbedInvocation(w, s, p, call, at, id);
    IntentIsOpen(w, s, p, call, at, id);
    hide ReadLedger, Fits, Line, Room, Reaches, Enabled, Apply, IntentRecord, IsUtcTime, IsHex;
    ResultIsAcceptable(w, p, s1.disk, intent, later, outcome, evidence);
    assert ResultRecord(w, p, s1.disk, intent, later, outcome, evidence) == result;
    FinishIsEnabled(w, s1, p, outcome, evidence, later);
    var s2 := TakeFinish(w, s1, p, outcome, evidence, later);
    t := WriteThrough(w, s2, p);
    var finishing, writing := [Finish(p, outcome, evidence, later)], [Write(p, |Line(result)|), Flush(p), ReadBack(p)];
    ReachesThen(w, s, steps, s1, finishing, s2);
    ReachesThen(w, s, steps + finishing, s2, writing, t);
    steps := steps + finishing + writing;
  }

  lemma FinishIsEnabled(w: World, s: State, p: nat, outcome: Outcome, evidence: string, at: string)
    requires PcOf(s, p).Returned? && IsHex(evidence, 64) && IsUtcTime(at) && ReadLedger(w.digest, s.disk).Some?
    requires Room(s.disk, ResultRecord(w, p, s.disk, PcOf(s, p).intent, at, outcome, evidence))
    ensures Enabled(w, s, Finish(p, outcome, evidence, at))
  {
  }

  /** The new intent is the open one afterwards, and its owner is who wrote it. */
  lemma IntentIsOpen(w: World, s: State, p: nat, call: Call, at: string, id: string)
    requires Enabled(w, s, Begin(p, call, at, id))
    ensures var intent := IntentRecord(w, p, s.disk, call, at, id);
      var led := Extend(ReadLedger(w.digest, s.disk).value, intent);
      && led.pending == Some(intent) && led.items == ReadLedger(w.digest, s.disk).value.items + [intent]
      && intent.body.runId == w.who(p).runId && intent.body.invocation == w.who(p).invocation
  {
    hide ReadLedger, Line;
  }

  // ----- room for both records -----

  lemma NewRecordFits(w: World, p: nat, items: seq<Item>, at: string, payload: Payload)
    requires ValidWorld(w) && IsUtcTime(at) && IsHex(Previous(items), 64) && Short(|items| + 1)
    requires match payload
      case Intent(id, _, target, binding) =>
        IsUuid(id) && IsHex(target, 40) && ValidContext(binding) && Short(binding.generation)
      case Completion(intent, _, evidence) => IsHex(intent, 64) && IsHex(evidence, 64)
    ensures |Line(Record(w, p, items, at, payload))| <= MAX_RECORD_BYTES
    ensures IsHex(Record(w, p, items, at, payload).sha256, 64)
  {
    hide Line, IsHex, IsUtcTime, IsUuid, ValidContext, Short, IsRunId, Previous;
    var item := Record(w, p, items, at, payload);
    assert Sizable(item);
    RecordFits(item);
  }

  /** In a journal that is not nearly full both records of a call always fit. */
  lemma BothFit(w: World, s: State, p: nat, call: Call, at: string, id: string,
                outcome: Outcome, evidence: string, later: string)
    requires ValidWorld(w) && ReadLedger(w.digest, s.disk).Some? && ValidCall(call) && Short(call.expected.generation)
    requires IsUtcTime(at) && IsUuid(id) && IsHex(evidence, 64) && IsUtcTime(later)
    requires |s.disk| + 2 * MAX_RECORD_BYTES <= MAX_JOURNAL_BYTES
    ensures var intent := IntentRecord(w, p, s.disk, call, at, id);
      Room(s.disk, intent) && Room(s.disk + Line(intent), AnswerTo(w, s, p, intent, outcome, evidence, later))
  {
    hide ReadLedger, Line, IsHex, IsUtcTime, IsUuid, Short, Journal, Record;
    var items := ReadLedger(w.digest, s.disk).value.items;
    var intent := IntentRecord(w, p, s.disk, call, at, id);
    ReadIsJournal(w.digest, s.disk);
    PreviousIsHex(w.digest, items);
    NumbersAreShort(w.digest, s.disk, |items| + 1);
    NumbersAreShort(w.digest, s.disk, |items| + 2);
    NewRecordFits(w, p, items, at, Intent(id, call.action, call.target, call.expected));
    assert Previous(items + [intent]) == intent.sha256;
    NewRecordFits(w, p, items + [intent], later, Completion(intent.sha256, outcome, evidence));
  }

  /** From any state in which an instance is idle under a journal without an open intent, with an
      unused identity and two records' room, it can carry any valid call through on its own. */
  lemma ReadyPerform(w: World, s: State, p: nat, call: Call, at: string, id: string,
                     outcome: Outcome, evidence: string, later: string) returns (steps: seq<Step>, t: State)
    requires ValidWorld(w) && PcOf(s, p) == Idle && ValidCall(call) && Short(call.expected.generation)
    requires ReadLedger(w.digest, s.disk).Some? && ReadLedger(w.digest, s.disk).value.pending == None
    requires id !in ReadLedger(w.digest, s.disk).value.used && |s.disk| + 2 * MAX_RECORD_BYTES <= MAX_JOURNAL_BYTES
    requires IsUtcTime(at) && IsUuid(id) && IsHex(evidence, 64) && IsUtcTime(later)
    ensures Reaches(w, s, steps, t) && PcOf(t, p) == Idle
    ensures ReadLedger(w.digest, t.disk).Some? && ReadLedger(w.digest, t.disk).value.pending == None
    ensures |s.trace| + 3 < |t.trace| && t.trace[|s.trace| + 3].Invoked? && t.trace[|s.trace| + 3].call == call
  {
    hide ReadLedger, Line, Room, Reaches, ValidCall, IsUtcTime, IsUuid, IsHex, Apply, Short;
    BothFit(w, s, p, call, at, id, outcome, evidence, later);
    steps, t := UndisturbedPerform(w, s, p, call, at, id, outcome, evidence, later);
    var intent := IntentRecord(w, p, s.disk, call, at, id);
    assert t.trace[|s.trace| + 3] == Undisturbed(p, call, intent, s.disk)[3];
  }

  lemma TakeEnter(w: World, p: nat) returns (s: State)
    requires ReadLedger(w.digest, "") == Some(EMPTY)
    ensures Reaches(w, START, [Enter(p)], s) && PcOf(s, p) == Idle && s.disk == "" && s.synced == 0
  {
    hide ReadLedger, Reaches;
    TakeOne(w, START, Enter(p));
    s := Apply(w, START, Enter(p));
  }

  /** Runs with an effect exist: on an empty directory any instance can enter and carry any valid
      call through, when its two records fit. */
  lemma FirstPerform(w: World, p: nat, call: Call, at: string, id: string, outcome: Outcome, evidence: string,
                     later: string)
      returns (steps: seq<Step>, t: State)
    requires ValidWorld(w) && ValidCall(call) && IsUtcTime(at) && IsUuid(id) && IsHex(evidence, 64) && IsUtcTime(later)
    requires var intent := Record(w, p, [], at, Intent(id, call.action, call.target, call.expected));
      var result := Record(w, p, [intent], later, Completion(intent.sha256, outcome, evidence));
      Room("", intent) && Room(Line(intent), result)
    ensures Reaches(w, START, steps, t)
    ensures exists i :: 0 <= i < |t.trace| && t.trace[i].Invoked? && t.trace[i].call == call
    ensures ReadLedger(w.digest, t.disk).Some? && ReadLedger(w.digest, t.disk).value.pending == None
  {
    hide ReadLedger, Line, Room, Reaches, ValidCall, IsUtcTime, IsUuid, IsHex, Apply;
    EmptyJournal(w);
    var s := TakeEnter(w, p);
    var intent := IntentRecord(w, p, s.disk, call, at, id);
    assert "" + Line(intent) == Line(intent) && [] + [intent] == [intent];
    steps, t := UndisturbedPerform(w, s, p, call, at, id, outcome, evidence, later);
    ReachesThen(w, START, [Enter(p)], s, steps, t);
    steps := [Enter(p)] + steps;
    assert t.trace[|s.trace| + 3] == Undisturbed(p, call, intent, s.disk)[3];
  }

  // ----- one run with an effect -----

  function Zeros(n: nat): (s: string)
    ensures IsHex(s, n)
  {
    seq(n, _ => '0')
  }

  function ZeroUuid(): (s: string)
    ensures IsUuid(s)
  {
    seq(36, i => if i in {8, 13, 18, 23} then '-' else '0')
  }

  function NewYear(): string { "2026-01-01T00:00:00+00:00" }

  lemma NewYearIsUtcTime()
    ensures IsUtcTime(NewYear())
  {
    hide Matches, OnCalendar, NewYear;
    NewYearMatches(NewYear(), "0000-00-00T00:00:00+00:00");
    NewYearIsOnCalendar(NewYear());
  }

  lemma NewYearIsOnCalendar(s: string)
    requires s == NewYear()
    ensures |s| >= 19 && OnCalendar(s)
  {
    hide TwoDigits;
    assert |s| == 25;
    TwoDigitsAre(s, 0, '2', '0');
    TwoDigitsAre(s, 2, '2', '6');
    TwoDigitsAre(s, 5, '0', '1');
    TwoDigitsAre(s, 8, '0', '1');
    TwoDigitsAre(s, 11, '0', '0');
    TwoDigitsAre(s, 14, '0', '0');
    TwoDigitsAre(s, 17, '0', '0');
  }

  lemma TwoDigitsAre(s: string, i: nat, tens: char, units: char)
    requires i + 1 < |s| && s[i] == tens && s[i + 1] == units
    ensures TwoDigits(s, i) == (tens as int - '0' as int) * 10 + (units as int - '0' as int)
  {
  }

  lemma NewYearMatches(s: string, pattern: string)
    requires s == NewYear() && pattern == "0000-00-00T00:00:00+00:00"
    ensures Matches(s, pattern)
  {
    forall i | 0 <= i < |s| - 6
      ensures if pattern[i] == '0' then CanonicalJson.Digit(s[i]) else s[i] == pattern[i]
    {
    }
    assert s[19..] == pattern[19..];
  }

  /** Every digest is the same and every run has the same name: the guard works all the same. */
  function PlainWorld(): (w: World)
    ensures ValidWorld(w)
  {
    World((b: Body) => Zeros(64), (p: nat) => Who("r", Interactive))
  }

  function PlainCall(): (c: Call)
    ensures ValidCall(c) && Short(c.expected.generation)
  {
    Call(SourceMerge, Zeros(40), Binding(Zeros(40), Zeros(40), ZeroUuid(), ZeroUuid(), 8, true, "closed"))
  }

  lemma StartRecords(w: World, p: nat, call: Call, at: string, id: string, outcome: Outcome, evidence: string,
                     later: string)
    requires ReadLedger(w.digest, START.disk) == Some(EMPTY)
    ensures var intent := Record(w, p, [], at, Intent(id, call.action, call.target, call.expected));
      && IntentRecord(w, p, START.disk, call, at, id) == intent && START.disk + Line(intent) == Line(intent)
      && AnswerTo(w, START, p, intent, outcome, evidence, later)
         == Record(w, p, [intent], later, Completion(intent.sha256, outcome, evidence))
  {
    hide ReadLedger, Line;
    var intent := Record(w, p, [], at, Intent(id, call.action, call.target, call.expected));
    assert [] + [intent] == [intent];
  }

  /** A run with an effect exists, so the safety results are about something. */
  lemma SomeRunInvokes()
    ensures exists w: World, steps, t ::
      ValidWorld(w) && Reaches(w, START, steps, t) && exists i :: 0 <= i < |t.trace| && t.trace[i].Invoked?
  {
    hide Reaches, ValidCall, IsUtcTime, IsUuid, IsHex, Short, Room, Line, NewYear;
    var w := PlainWorld();
    EmptyJournal(w);
    NewYearIsUtcTime();
    BothFit(w, START, 0, PlainCall(), NewYear(), ZeroUuid(), ObservedComplete, Zeros(64), NewYear());
    StartRecords(w, 0, PlainCall(), NewYear(), ZeroUuid(), ObservedComplete, Zeros(64), NewYear());
    var steps, t := FirstPerform(w, 0, PlainCall(), NewYear(), ZeroUuid(), ObservedComplete, Zeros(64), NewYear());
    assert ValidWorld(w) && Reaches(w, START, steps, t);
  }

  lemma EmptyJournal(w: World)
    ensures ReadLedger(w.digest, "") == Some(EMPTY)
  {
  }
}
