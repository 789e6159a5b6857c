/** Every run of every guard over one private directory: instances enter, perform, raise,
    leave, die, and the machine loses power, at any point and between any two bytes.
    One instance of ExecutionGuard is one index; `with` may be entered once. */
module GuardRuns {
  import opened Prelude
  import opened GuardJournal
  import opened GuardJournalFacts

  datatype Who = Who(runId: string, invocation: Invocation)

  /** What no step changes: the digest function and who each instance is. */
  datatype World = World(digest: Body -> string, who: nat -> Who)

  ghost predicate ValidWorld(w: World) {
    HexDigests(w.digest) && forall p :: IsRunId(w.who(p).runId)
  }

  /** The arguments of one perform. */
  datatype Call = Call(action: Action, target: string, expected: Context)

  predicate ValidCall(c: Call) {
    IsHex(c.target, 40) && ValidContext(c.expected) && ActionAdmits(c.expected, c.action, c.target)
  }

  /** Where an instance is.  `base` is the journal text before the record being written;
      `answers` is the intent a result record belongs to. */
  datatype Pc =
    | Fresh
    | Idle
    | Appending(call: Call, item: Item, answers: Option<Item>, base: string, left: string)
    | Flushed(call: Call, item: Item, answers: Option<Item>, base: string)
    | Announced(call: Call, intent: Item, base: string)
    | Confirmed(call: Call, intent: Item, base: string)
    | Returned(call: Call, intent: Item)
    | Gone

  predicate Live(pc: Pc) { !pc.Fresh? && !pc.Gone? }

  datatype Event =
    | Acquired(actor: nat)
    | Observed(actor: nat, seen: Context)
    | IntentDurable(actor: nat, intent: Item)
    | Invoked(actor: nat, call: Call, intent: Item, base: string, journal: string)
    | ResultDurable(actor: nat, result: Item)
    | Released(actor: nat)

  /** The lock, the journal with the part of it that survives a power loss, the instances
      and everything observable that has happened. */
  datatype State = State(owner: Option<nat>, disk: string, synced: nat, pcs: map<nat, Pc>, trace: seq<Event>)

  const START := State(None, "", 0, map[], [])

  function PcOf(s: State, p: nat): Pc { if p in s.pcs then s.pcs[p] else Fresh }

  function Record(w: World, p: nat, items: seq<Item>, at: string, payload: Payload): Item {
    var body := Body(at, w.who(p).invocation, payload, Previous(items), w.who(p).runId, |items| + 1);
    Item(body, w.digest(body))
  }

  function IntentRecord(w: World, p: nat, disk: string, call: Call, at: string, id: string): Item
    requires ReadLedger(w.digest, disk).Some?
  {
    Record(w, p, ReadLedger(w.digest, disk).value.items, at, Intent(id, call.action, call.target, call.expected))
  }

  function ResultRecord(w: World, p: nat, disk: string, intent: Item, at: string, outcome: Outcome,
                        evidence: string): Item
    requires ReadLedger(w.digest, disk).Some?
  {
    Record(w, p, ReadLedger(w.digest, disk).value.items, at, Completion(intent.sha256, outcome, evidence))
  }

  predicate Room(disk: string, item: Item) {
    |Line(item)| <= MAX_RECORD_BYTES && |disk| + |Line(item)| <= MAX_JOURNAL_BYTES
  }

  datatype Step =
    | Enter(p: nat)
    | Refuse(p: nat)                                        // lock busy or journal refused
    | Begin(p: nat, call: Call, at: string, id: string)     // checks pass, first observation equal
    | Write(p: nat, n: nat)                                 // os.write took n bytes
    | Flush(p: nat)
    | ReadBack(p: nat)
    | Confirm(p: nat)                                       // second observation equal
    | Invoke(p: nat)
    | Finish(p: nat, outcome: Outcome, evidence: string, at: string)
    | Raise(p: nat)                                         // any check fails; the caller may catch it
    | Leave(p: nat)                                         // __exit__, or the process dies
    | PowerLoss(kept: nat)

  predicate Enabled(w: World, s: State, step: Step) {
    match step
    case Enter(p) => PcOf(s, p).Fresh? && s.owner == None && ReadLedger(w.digest, s.disk).Some?
    case Refuse(p) => PcOf(s, p).Fresh?
    case Begin(p, call, at, id) =>
      && PcOf(s, p).Idle? && ValidCall(call) && IsUtcTime(at) && IsUuid(id)
      && ReadLedger(w.digest, s.disk).Some? && ReadLedger(w.digest, s.disk).value.pending == None
      && Room(s.disk, IntentRecord(w, p, s.disk, call, at, id))
    case Write(p, n) => PcOf(s, p).Appending? && 0 < n <= |PcOf(s, p).left|
    case Flush(p) => PcOf(s, p).Appending? && PcOf(s, p).left == ""
    case ReadBack(p) =>
      && PcOf(s, p).Flushed?
      && ReadLedger(w.digest, s.disk).Some?
      && ReadLedger(w.digest, s.disk).value.items != []
      && Last(ReadLedger(w.digest, s.disk).value.items) == PcOf(s, p).item
    case Confirm(p) => PcOf(s, p).Announced?
    case Invoke(p) => PcOf(s, p).Confirmed?
    case Finish(p, outcome, evidence, at) =>
      && PcOf(s, p).Returned? && IsHex(evidence, 64) && IsUtcTime(at)
      && ReadLedger(w.digest, s.disk).Some?
      && Room(s.disk, ResultRecord(w, p, s.disk, PcOf(s, p).intent, at, outcome, evidence))
    case Raise(p) => Live(PcOf(s, p))
    case Leave(p) => Live(PcOf(s, p))
    case PowerLoss(kept) => s.synced <= kept <= |s.disk|
  }

  function Move(s: State, p: nat, pc: Pc, events: seq<Event>): State {
    s.(pcs := s.pcs[p := pc], trace := s.trace + events)
  }

  function Apply(w: World, s: State, step: Step): State
    requires Enabled(w, s, step)
  {
    match step
    case Enter(p) => Move(s, p, Idle, [Acquired(p)]).(owner := Some(p))
    case Refuse(p) => Move(s, p, Gone, [])
    case Begin(p, call, at, id) =>
      var item := IntentRecord(w, p, s.disk, call, at, id);
      Move(s, p, Appending(call, item, None, s.disk, Line(item)), [Observed(p, call.expected)])
    case Write(p, n) =>
      var pc := PcOf(s, p);
      Move(s, p, pc.(left := pc.left[n..]), []).(disk := s.disk + pc.left[..n])
    case Flush(p) =>
      var pc := PcOf(s, p);
      Move(s, p, Flushed(pc.call, pc.item, pc.answers, pc.base), []).(synced := |s.disk|)
    case ReadBack(p) =>
      var pc := PcOf(s, p);
      if pc.answers == None then Move(s, p, Announced(pc.call, pc.item, pc.base), [IntentDurable(p, pc.item)])
      else Move(s, p, Idle, [ResultDurable(p, pc.item)])
    case Confirm(p) =>
      var pc := PcOf(s, p);
      Move(s, p, Confirmed(pc.call, pc.intent, pc.base), [Observed(p, pc.call.expected)])
    case Invoke(p) =>
      var pc := PcOf(s, p);
      Move(s, p, Returned(pc.call, pc.intent), [Invoked(p, pc.call, pc.intent, pc.base, s.disk)])
    case Finish(p, outcome, evidence, at) =>
      var pc := PcOf(s, p);
      var item := ResultRecord(w, p, s.disk, pc.intent, at, outcome, evidence);
      Move(s, p, Appending(pc.call, item, Some(pc.intent), s.disk, Line(item)), [])
    case Raise(p) => Move(s, p, Idle, [])
    case Leave(p) => Move(s, p, Gone, [Released(p)]).(owner := None)
    case PowerLoss(kept) =>
      State(None, s.disk[..kept], kept, map p | p in s.pcs :: Gone,
            if s.owner.Some? then s.trace + [Released(s.owner.value)] else s.trace)
  }

  ghost predicate Reaches(w: World, s: State, steps: seq<Step>, t: State)
    decreases |steps|
  {
    if steps == [] then s == t
    else Enabled(w, s, steps[0]) && Reaches(w, Apply(w, s, steps[0]), steps[1..], t)
  }

  // ----- the invariant -----

  /** Who holds the lock after some events. */
  function Holder(trace: seq<Event>): Option<nat> {
    if trace == [] then None
    else match trace[|trace| - 1]
      case Acquired(p) => Some(p)
      case Released(p) => None
      case _ => Holder(trace[..|trace| - 1])
  }

  /** The lock is taken only while free, and every other event is its holder's own. */
  predicate LockDiscipline(trace: seq<Event>) {
    trace == [] ||
    (var front, last := trace[..|trace| - 1], trace[|trace| - 1];
     LockDiscipline(front) && Holder(front) == if last.Acquired? then None else Some(last.actor))
  }

  predicate LockInv(s: State) {
    && (forall p | p in s.pcs && Live(s.pcs[p]) :: s.owner == Some(p))
    && (s.owner.Some? ==> Live(PcOf(s, s.owner.value)))
    && Holder(s.trace) == s.owner
    && LockDiscipline(s.trace)
  }

  /** All invoked effects so far announced themselves within this text. */
  predicate InvokedWithin(trace: seq<Event>, text: string) {
    forall i | 0 <= i < |trace| && trace[i].Invoked? :: trace[i].journal <= text
  }

  predicate EndsWith(trace: seq<Event>, tail: seq<Event>) {
    |tail| <= |trace| && trace[|trace| - |tail|..] == tail
  }

  /** `journal` is `base`, which holds no open intent, and the announced intent of the call. */
  predicate Announces(w: World, p: nat, call: Call, intent: Item, base: string, journal: string) {
    && ReadLedger(w.digest, base).Some? && ReadLedger(w.digest, base).value.pending == None
    && ReadLedger(w.digest, journal).Some?
    && ReadLedger(w.digest, journal).value.items == ReadLedger(w.digest, base).value.items + [intent]
    && base <= journal
    && intent.body.payload.Intent?
    && intent.body.payload.action == call.action
    && intent.body.payload.targetCommit == call.target
    && intent.body.payload.binding == call.expected
    && intent.body.runId == w.who(p).runId && intent.body.invocation == w.who(p).invocation
  }

  predicate Partly(pc: Pc, disk: string)
    requires pc.Appending?
  {
    && |pc.left| <= |Line(pc.item)|
    && pc.left == Line(pc.item)[|Line(pc.item)| - |pc.left|..]
    && disk == pc.base + Line(pc.item)[..|Line(pc.item)| - |pc.left|]
  }

  predicate Written(w: World, p: nat, call: Call, item: Item, answers: Option<Item>, base: string, s: State) {
    && ReadLedger(w.digest, base).Some? && Room(base, item)
    && match answers
       case None =>
         && ReadLedger(w.digest, base).value.pending == None
         && InvokedWithin(s.trace, base)
         && EndsWith(s.trace, [Observed(p, call.expected)])
         && ValidCall(call)
         && item.body.payload.Intent?
         && item.body.payload.action == call.action
         && item.body.payload.targetCommit == call.target
         && item.body.payload.binding == call.expected
         && item.body.runId == w.who(p).runId && item.body.invocation == w.who(p).invocation
       case Some(intent) =>
         && ReadLedger(w.digest, base).value.pending == Some(intent)
         && item.body.payload.Completion?
         && Fits(w.digest, ReadLedger(w.digest, base).value, item)
         && s.synced >= |base|
  }

  predicate PcInv(w: World, s: State, p: nat) {
    match PcOf(s, p)
    case Appending(call, item, answers, base, left) =>
      Written(w, p, call, item, answers, base, s) && Partly(PcOf(s, p), s.disk)
      && (answers.Some? ==> s.synced == |base|)
    case Flushed(call, item, answers, base) =>
      Written(w, p, call, item, answers, base, s) && s.disk == base + Line(item) && s.synced == |s.disk|
    case Announced(call, intent, base) =>
      && Announces(w, p, call, intent, base, s.disk) && InvokedWithin(s.trace, base) && s.synced == |s.disk|
      && EndsWith(s.trace, [Observed(p, call.expected), IntentDurable(p, intent)])
    case Confirmed(call, intent, base) =>
      && Announces(w, p, call, intent, base, s.disk) && InvokedWithin(s.trace, base) && s.synced == |s.disk|
      && EndsWith(s.trace, [Observed(p, call.expected), IntentDurable(p, intent), Observed(p, call.expected)])
    case Returned(call, intent) =>
      && ReadLedger(w.digest, s.disk).Some? && ReadLedger(w.digest, s.disk).value.pending == Some(intent)
      && intent.body.runId == w.who(p).runId && intent.body.invocation == w.who(p).invocation
      && s.synced == |s.disk|
    case _ => true
  }

  /** What precedes an invocation: its own first observation, its durable intent, its second
      observation, all by the same instance and all equal to what it expected. */
  predicate Prepared(w: World, trace: seq<Event>, i: nat)
    requires i < |trace| && trace[i].Invoked?
  {
    var e := trace[i];
    && i >= 3
    && trace[i - 3] == Observed(e.actor, e.call.expected)
    && trace[i - 2] == IntentDurable(e.actor, e.intent)
    && trace[i - 1] == Observed(e.actor, e.call.expected)
    && Announces(w, e.actor, e.call, e.intent, e.base, e.journal)
  }

  predicate TraceInv(w: World, s: State) {
    && s.synced <= |s.disk|
    && InvokedWithin(s.trace, s.disk[..s.synced])
    && Disciplined(w, s.trace)
  }

  /** Every invocation was prepared, and within the text before its intent every earlier
      invocation had announced itself. */
  predicate Disciplined(w: World, trace: seq<Event>) {
    && (forall i | 0 <= i < |trace| && trace[i].Invoked? :: Prepared(w, trace, i))
    && (forall i, j | 0 <= i < j < |trace| && trace[i].Invoked? && trace[j].Invoked? ::
          trace[i].journal <= trace[j].base)
  }

  ghost predicate Inv(w: World, s: State) {
    LockInv(s) && TraceInv(w, s) && forall p :: PcInv(w, s, p)
  }

  // ----- every step keeps the invariant -----

  lemma PushEvent(trace: seq<Event>, e: Event)
    requires LockDiscipline(trace) && Holder(trace) == if e.Acquired? then None else Some(e.actor)
    ensures LockDiscipline(trace + [e])
    ensures Holder(trace + [e]) == match e case Acquired(p) => Some(p) case Released(_) => None case _ => Holder(trace)
  {
    assert (trace + [e])[..|trace|] == trace;
  }

  lemma LockStep(w: World, s: State, step: Step)
    requires LockInv(s) && Enabled(w, s, step)
    ensures LockInv(Apply(w, s, step))
  {
    hide ReadLedger, Line, Record, IntentRecord, ResultRecord, ValidCall;
    hide LockDiscipline, Holder, Room, Last, IsHex, IsUtcTime, IsUuid;
    var t := Apply(w, s, step);
    match step
    case Enter(p) => PushEvent(s.trace, Acquired(p));
    case Leave(p) => PushEvent(s.trace, Released(p));
    case PowerLoss(_) => if s.owner.Some? { PushEvent(s.trace, Released(s.owner.value)); }
    case Refuse(p) => assert s.trace + [] == s.trace;
    case _ => OwnerMoves(s, step.p, PcOf(t, step.p), t.trace[|s.trace|..]);
  }

  /** A step of the holder that lets it go on holding. */
  lemma OwnerMoves(s: State, p: nat, pc: Pc, events: seq<Event>)
    requires LockInv(s) && Live(PcOf(s, p)) && Live(pc) && |events| <= 1
    requires events != [] ==> !events[0].Acquired? && !events[0].Released? && events[0].actor == p
    ensures LockInv(Move(s, p, pc, events))
  {
    hide LockDiscipline, Holder;
    if events == [] {
      assert s.trace + events == s.trace;
    } else {
      PushEvent(s.trace, events[0]);
      assert events == [events[0]];
    }
  }

  lemma QuietEvent(w: World, trace: seq<Event>, e: Event, text: string)
    requires Disciplined(w, trace) && InvokedWithin(trace, text) && !e.Invoked?
    ensures Disciplined(w, trace + [e]) && InvokedWithin(trace + [e], text)
  {
    hide Announces;
    forall i | 0 <= i < |trace + [e]| && (trace + [e])[i].Invoked? ensures Prepared(w, trace + [e], i) {
      assert Prepared(w, trace, i);
    }
  }

  lemma WithinLonger(trace: seq<Event>, text: string, longer: string)
    requires InvokedWithin(trace, text) && text <= longer
    ensures InvokedWithin(trace, longer)
  {
  }

  lemma InvokeEvent(w: World, trace: seq<Event>, e: Event)
    requires Disciplined(w, trace) && e.Invoked? && InvokedWithin(trace, e.base) && e.base <= e.journal
    requires Announces(w, e.actor, e.call, e.intent, e.base, e.journal)
    requires EndsWith(trace, [Observed(e.actor, e.call.expected), IntentDurable(e.actor, e.intent),
                              Observed(e.actor, e.call.expected)])
    ensures Disciplined(w, trace + [e]) && InvokedWithin(trace + [e], e.journal)
  {
    hide Announces;
    var more := trace + [e];
    var seen := Observed(e.actor, e.call.expected);
    var tail := [seen, IntentDurable(e.actor, e.intent), seen];
    forall i | 0 <= i < |more| && more[i].Invoked? ensures Prepared(w, more, i) {
      if i < |trace| {
        assert Prepared(w, trace, i);
      } else {
        assert trace[i - 3..] == tail;
        assert more[i - 3] == trace[i - 3..][0] && more[i - 2] == trace[i - 3..][1] && more[i - 1] == trace[i - 3..][2];
      }
    }
  }

  lemma TraceStep(w: World, s: State, step: Step)
    requires Inv(w, s) && Enabled(w, s, step)
    ensures TraceInv(w, Apply(w, s, step))
  {
    hide ReadLedger, Line, Record, IntentRecord, ResultRecord;
    hide ValidCall, Disciplined, InvokedWithin, Announces, LockInv, Written;
    var t := Apply(w, s, step);
    var safe := s.disk[..s.synced];
    match step
    case Enter(p) => QuietEvent(w, s.trace, Acquired(p), safe);
    case Leave(p) => QuietEvent(w, s.trace, Released(p), safe);
    case Begin(p, call, _, _) => QuietEvent(w, s.trace, Observed(p, call.expected), safe);
    case Confirm(p) => QuietEvent(w, s.trace, Observed(p, PcOf(s, p).call.expected), safe);
    case ReadBack(p) =>
      var pc := PcOf(s, p);
      QuietEvent(w, s.trace, if pc.answers == None then IntentDurable(p, pc.item) else ResultDurable(p, pc.item), safe);
    case Write(p, n) =>
      assert s.trace + [] == s.trace;
      assert t.disk[..t.synced] == safe;
    case Flush(p) =>
      assert s.trace + [] == s.trace;
      WithinLonger(s.trace, safe, s.disk);
      assert t.disk[..t.synced] == s.disk;
    case Invoke(p) =>
      InvokeStep(w, s, p);
    case PowerLoss(kept) =>
      assert safe <= s.disk[..kept] == t.disk[..t.synced];
      WithinLonger(s.trace, safe, s.disk[..kept]);
      if s.owner.Some? { QuietEvent(w, s.trace, Released(s.owner.value), s.disk[..kept]); }
    case _ => assert s.trace + [] == s.trace;
  }

  lemma InvokeStep(w: World, s: State, p: nat)
    requires Inv(w, s) && Enabled(w, s, Invoke(p))
    ensures TraceInv(w, Apply(w, s, Invoke(p)))
  {
    hide ReadLedger, Disciplined, InvokedWithin, LockInv, Written;
    assert PcInv(w, s, p);
    var pc := PcOf(s, p);
    InvokeEvent(w, s.trace, Invoked(p, pc.call, pc.intent, pc.base, s.disk));
    assert s.disk[..s.synced] == s.disk;
  }

  // ----- the instance that moved -----

  lemma BeginKeeps(w: World, s: State, p: nat, call: Call, at: string, id: string)
    requires Inv(w, s) && Enabled(w, s, Begin(p, call, at, id))
    ensures PcInv(w, Apply(w, s, Begin(p, call, at, id)), p)
  {
    hide ReadLedger, Line, Disciplined, ValidCall, InvokedWithin, LockInv, PcInv, IsHex, IsUuid, IsUtcTime;
    assert TraceInv(w, s);
    hide Inv;
    WithinLonger(s.trace, s.disk[..s.synced], s.disk);
    QuietEvent(w, s.trace, Observed(p, call.expected), s.disk);
    BegunKeeps(w, s, p, call, at, id);
  }

  lemma BegunKeeps(w: World, s: State, p: nat, call: Call, at: string, id: string)
    requires Enabled(w, s, Begin(p, call, at, id))
    requires InvokedWithin(s.trace + [Observed(p, call.expected)], s.disk)
    ensures PcInv(w, Apply(w, s, Begin(p, call, at, id)), p)
  {
    hide ReadLedger, Line, ValidCall, InvokedWithin, Room, IsHex, IsUuid, IsUtcTime;
    var t := Apply(w, s, Begin(p, call, at, id));
    var pc := PcOf(t, p);
    assert pc.left == Line(pc.item)[0..] && t.disk == pc.base + Line(pc.item)[..0];
    assert t.trace[|t.trace| - 1..] == [Observed(p, call.expected)];
  }

  lemma WriteKeeps(w: World, s: State, p: nat, n: nat)
    requires Inv(w, s) && Enabled(w, s, Write(p, n))
    ensures PcInv(w, Apply(w, s, Write(p, n)), p)
  {
    hide ReadLedger, Line, Disciplined, ValidCall, InvokedWithin, LockInv, TraceInv;
    hide IsHex, IsUtcTime, IsUuid, Room, Announces, IntentRecord, ResultRecord, Fits, EndsWith;
    assert PcInv(w, s, p);
    var t := Apply(w, s, Write(p, n));
    var line, left := Line(PcOf(s, p).item), PcOf(s, p).left;
    assert s.trace + [] == s.trace;
    assert left[n..] == line[|line| - |left[n..]|..];
    assert line[..|line| - |left|] + left[..n] == line[..|line| - |left[n..]|];
  }

  lemma FlushKeeps(w: World, s: State, p: nat)
    requires Inv(w, s) && Enabled(w, s, Flush(p))
    ensures PcInv(w, Apply(w, s, Flush(p)), p)
  {
    hide ReadLedger, Line, Disciplined, ValidCall, InvokedWithin, LockInv, TraceInv;
    assert PcInv(w, s, p);
    var line := Line(PcOf(s, p).item);
    assert s.trace + [] == s.trace;
    assert line[..|line|] == line;
  }

  /** The record that was read back is the one that was written. */
  lemma ReadBackItems(w: World, base: string, item: Item)
    requires ReadLedger(w.digest, base).Some? && Room(base, item)
    requires ReadLedger(w.digest, base + Line(item)).Some?
    requires ReadLedger(w.digest, base + Line(item)).value.items != []
    requires Last(ReadLedger(w.digest, base + Line(item)).value.items) == item
    ensures ReadLedger(w.digest, base + Line(item)).value == Extend(ReadLedger(w.digest, base).value, item)
  {
    ReadWhole(w.digest, base, item);
  }

  lemma ReadBackKeeps(w: World, s: State, p: nat)
    requires Inv(w, s) && Enabled(w, s, ReadBack(p))
    ensures PcInv(w, Apply(w, s, ReadBack(p)), p)
  {
    hide ReadLedger, Line, Disciplined, ValidCall, LockInv, TraceInv, Fits, Room;
    assert PcInv(w, s, p);
    var pc := PcOf(s, p);
    if pc.answers == None {
      ReadBackItems(w, pc.base, pc.item);
      assert s.disk[..s.synced] == s.disk;
      QuietWithin(s.trace, IntentDurable(p, pc.item), pc.base);
      EndsMore(s.trace, [Observed(p, pc.call.expected)], IntentDurable(p, pc.item));
    }
  }

  lemma QuietWithin(trace: seq<Event>, e: Event, text: string)
    requires InvokedWithin(trace, text) && !e.Invoked?
    ensures InvokedWithin(trace + [e], text)
  {
  }

  lemma EndsMore(trace: seq<Event>, tail: seq<Event>, e: Event)
    requires EndsWith(trace, tail)
    ensures EndsWith(trace + [e], tail + [e])
  {
    assert (trace + [e])[|trace + [e]| - |tail + [e]|..] == trace[|trace| - |tail|..] + [e];
  }

  lemma ConfirmKeeps(w: World, s: State, p: nat)
    requires Inv(w, s) && Enabled(w, s, Confirm(p))
    ensures PcInv(w, Apply(w, s, Confirm(p)), p)
  {
    hide ReadLedger, Announces, Disciplined, InvokedWithin, EndsWith, LockInv, TraceInv;
    assert PcInv(w, s, p);
    var pc := PcOf(s, p);
    var e := Observed(p, pc.call.expected);
    QuietWithin(s.trace, e, pc.base);
    EndsMore(s.trace, [e, IntentDurable(p, pc.intent)], e);
    assert [e, IntentDurable(p, pc.intent)] + [e] == [e, IntentDurable(p, pc.intent), e];
  }

  lemma InvokeKeeps(w: World, s: State, p: nat)
    requires Inv(w, s) && Enabled(w, s, Invoke(p))
    ensures PcInv(w, Apply(w, s, Invoke(p)), p)
  {
    hide ReadLedger, Disciplined, InvokedWithin, EndsWith, LockInv, TraceInv, Journal, LedgerOf, Room;
    assert PcInv(w, s, p);
    hide Inv, Line;
    var items := ReadLedger(w.digest, PcOf(s, p).base).value.items;
    ReadIsJournal(w.digest, s.disk);
    assert LedgerOf(items + [PcOf(s, p).intent]).pending == Some(PcOf(s, p).intent) by {
      OpenIntent(items + [PcOf(s, p).intent]);
    }
  }

  lemma FinishKeeps(w: World, s: State, p: nat, outcome: Outcome, evidence: string, at: string)
    requires ValidWorld(w) && Inv(w, s) && Enabled(w, s, Finish(p, outcome, evidence, at))
    ensures PcInv(w, Apply(w, s, Finish(p, outcome, evidence, at)), p)
  {
    hide ReadLedger, Line, Disciplined, InvokedWithin, LockInv, TraceInv, Room;
    assert PcInv(w, s, p);
    var t := Apply(w, s, Finish(p, outcome, evidence, at));
    var pc := PcOf(t, p);
    assert pc.left == Line(pc.item)[0..] && t.disk == pc.base + Line(pc.item)[..0];
    assert s.trace + [] == s.trace;
  }

  lemma OthersKeep(w: World, s: State, step: Step, q: nat)
    requires Inv(w, s) && Enabled(w, s, step) && LockInv(Apply(w, s, step))
    requires var pc := PcOf(Apply(w, s, step), q);
      pc == PcOf(s, q) || !Live(pc) || pc.Idle?
    requires step.Refuse? || !Live(PcOf(s, q)) || !Live(PcOf(Apply(w, s, step), q)) || PcOf(Apply(w, s, step), q).Idle?
    ensures PcInv(w, Apply(w, s, step), q)
  {
    hide ReadLedger, Line, Disciplined, LockInv, TraceInv, Record, Partly, Announces, InvokedWithin, EndsWith;
    assert PcInv(w, s, q);
    assert s.trace + [] == s.trace;
  }

  lemma Preserved(w: World, s: State, step: Step)
    requires ValidWorld(w) && Inv(w, s) && Enabled(w, s, step)
    ensures Inv(w, Apply(w, s, step))
  {
    hide ReadLedger, Line, Disciplined, TraceInv, Record, PcInv, Room, ValidCall;
    var t := Apply(w, s, step);
    LockStep(w, s, step);
    TraceStep(w, s, step);
    forall q ensures PcInv(w, t, q) {
      match step
      case Begin(p, call, at, id) =>
        if p == q { BeginKeeps(w, s, p, call, at, id); } else { OthersKeep(w, s, step, q); }
      case Write(p, n) => if p == q { WriteKeeps(w, s, p, n); } else { OthersKeep(w, s, step, q); }
      case Flush(p) => if p == q { FlushKeeps(w, s, p); } else { OthersKeep(w, s, step, q); }
      case ReadBack(p) => if p == q { ReadBackKeeps(w, s, p); } else { OthersKeep(w, s, step, q); }
      case Confirm(p) => if p == q { ConfirmKeeps(w, s, p); } else { OthersKeep(w, s, step, q); }
      case Invoke(p) => if p == q { InvokeKeeps(w, s, p); } else { OthersKeep(w, s, step, q); }
      case Finish(p, o, e, at) => if p == q { FinishKeeps(w, s, p, o, e, at); } else { OthersKeep(w, s, step, q); }
      case _ => OthersKeep(w, s, step, q);
    }
  }

  lemma {:induction false} InvAlong(w: World, s: State, steps: seq<Step>, t: State)
    requires ValidWorld(w) && Inv(w, s) && Reaches(w, s, steps, t)
    ensures Inv(w, t)
    decreases |steps|
  {
    hide Inv, Enabled, Apply;
    if steps != [] {
      Preserved(w, s, steps[0]);
      InvAlong(w, Apply(w, s, steps[0]), steps[1..], t);
    }
  }

  lemma StartInv(w: World)
    ensures Inv(w, START)
  {
  }

  // ----- safety over whole runs -----

  /** Every invocation in every run is preceded, with nothing in between, by its own second
      observation, its own durable intent and its own first observation, both observations
      equal to what the caller expected; the journal it ran under ends with that intent. */
  lemma InvocationIsPrepared(w: World, steps: seq<Step>, s: State, i: nat)
    requires ValidWorld(w) && Reaches(w, START, steps, s)
    requires i < |s.trace| && s.trace[i].Invoked?
    ensures Prepared(w, s.trace, i)
  {
    StartInv(w);
    InvAlong(w, START, steps, s);
  }

  /** At most one instance holds the guard, and only the holder does anything: between two
      acquisitions there is a release, and every other event is its current holder's. */
  lemma OneHolder(w: World, steps: seq<Step>, s: State)
    requires ValidWorld(w) && Reaches(w, START, steps, s)
    ensures LockDiscipline(s.trace)
    ensures forall p, q | Live(PcOf(s, p)) && Live(PcOf(s, q)) :: p == q
  {
    StartInv(w);
    InvAlong(w, START, steps, s);
  }

  /** The records end with `last`; `first` is one of them and the next one is its result. */
  predicate AnsweredBefore(records: seq<Item>, first: Item, last: Item) {
    && records != [] && Last(records) == last
    && exists n :: 0 <= n < |records| - 2 && records[n] == first && Pairs(Some(first), records[n + 1])
                   && records[n + 1].body.payload.Completion?
  }

  /** No replay: when an effect is invoked, the journal already answers every effect invoked
      before it with a result of the same run right after its intent, and the two requests differ. */
  lemma EarlierEffectsAreAnswered(w: World, steps: seq<Step>, s: State, i: nat, j: nat)
    requires ValidWorld(w) && Reaches(w, START, steps, s)
    requires i < j < |s.trace| && s.trace[i].Invoked? && s.trace[j].Invoked?
    ensures ReadLedger(w.digest, s.trace[j].journal).Some?
    ensures AnsweredBefore(ReadLedger(w.digest, s.trace[j].journal).value.items, s.trace[i].intent, s.trace[j].intent)
    ensures s.trace[i].intent.body.payload.Intent? && s.trace[j].intent.body.payload.Intent?
    ensures s.trace[i].intent.body.payload.requestId != s.trace[j].intent.body.payload.requestId
  {
    InvocationIsPrepared(w, steps, s, i);
    InvocationIsPrepared(w, steps, s, j);
    WithinBase(w, steps, s, i, j);
    AnsweredBetween(w, s.trace[i], s.trace[j]);
  }

  lemma WithinBase(w: World, steps: seq<Step>, s: State, i: nat, j: nat)
    requires ValidWorld(w) && Reaches(w, START, steps, s)
    requires i < j < |s.trace| && s.trace[i].Invoked? && s.trace[j].Invoked?
    ensures s.trace[i].journal <= s.trace[j].base
  {
    StartInv(w);
    InvAlong(w, START, steps, s);
  }

  lemma AnsweredBetween(w: World, d: Event, e: Event)
    requires d.Invoked? && e.Invoked? && d.journal <= e.base
    requires Announces(w, d.actor, d.call, d.intent, d.base, d.journal)
    requires Announces(w, e.actor, e.call, e.intent, e.base, e.journal)
    ensures AnsweredBefore(ReadLedger(w.digest, e.journal).value.items, d.intent, e.intent)
    ensures d.intent.body.payload.requestId != e.intent.body.payload.requestId
  {
    hide ReadLedger, Fits, Journal;
    RecordsOfPrefix(w.digest, d.journal, e.base);
    var before := ReadLedger(w.digest, d.journal).value.items;
    var middle := ReadLedger(w.digest, e.base).value.items;
    var records := ReadLedger(w.digest, e.journal).value.items;
    var n := |before| - 1;
    ReadIsJournal(w.digest, e.base);
    ReadIsJournal(w.digest, e.journal);
    ResultsAnswerIntents(w.digest, records);
    OpenIntent(middle);
    assert middle[n] == d.intent == records[n];
    assert |middle| != |before| by {
      assert Last(before) == d.intent;
      assert OpenAfter(middle) == None;
    }
    assert records[n + 1].body.payload.Completion?;
    RequestsAreDistinct(w.digest, records, n, |records| - 1);
  }

  // ----- an abandoned intent -----

  /** A journal under which no perform can begin: refused, or with an open intent. */
  predicate Stuck(w: World, text: string) {
    ReadLedger(w.digest, text) == None || ReadLedger(w.digest, text).value.pending.Some?
  }

  /** Nobody is performing, and whatever a power loss may keep of the journal is stuck. */
  ghost predicate Blocked(w: World, s: State) {
    && s.synced <= |s.disk|
    && (forall p :: Live(PcOf(s, p)) ==> PcOf(s, p).Idle?)
    && (forall k | s.synced <= k <= |s.disk| :: Stuck(w, s.disk[..k]))
  }

  lemma BlockedStep(w: World, s: State, step: Step)
    requires Blocked(w, s) && Enabled(w, s, step)
    ensures Blocked(w, Apply(w, s, step))
    ensures Quiet(s.trace, Apply(w, s, step).trace)
  {
    hide ReadLedger, Line, Room, ValidCall, Record, IntentRecord, ResultRecord;
    var t := Apply(w, s, step);
    assert s.disk[..|s.disk|] == s.disk;
    assert s.trace + [] == s.trace;
    assert s.trace[|s.trace|..] == [];
    forall p ensures Live(PcOf(t, p)) ==> PcOf(t, p).Idle? {
      assert Live(PcOf(s, p)) ==> PcOf(s, p).Idle?;
    }
    if step.PowerLoss? {
      assert t.disk[..step.kept] == s.disk[..step.kept];
    }
  }

  /** The later events extend the earlier ones without any invocation. */
  predicate Quiet(earlier: seq<Event>, later: seq<Event>) {
    earlier <= later && forall i | |earlier| <= i < |later| :: !later[i].Invoked?
  }

  lemma {:induction false} BlockedForever(w: World, s: State, steps: seq<Step>, t: State)
    requires Blocked(w, s) && Reaches(w, s, steps, t)
    ensures Blocked(w, t) && Quiet(s.trace, t.trace)
    decreases |steps|
  {
    hide Blocked, Enabled, Apply;
    if steps != [] {
      BlockedStep(w, s, steps[0]);
      BlockedForever(w, Apply(w, s, steps[0]), steps[1..], t);
    }
  }

  /** An instance whose intent is durable and whose result is not completely written: from the
      flush of the intent, before it is read back, to the last byte of the result. */
  predicate Unanswered(pc: Pc) {
    || (pc.Flushed? && pc.answers == None)
    || pc.Announced? || pc.Confirmed? || pc.Returned?
    || (pc.Appending? && pc.answers.Some? && pc.left != "")
  }

  /** How an instance can stop performing: it raises, leaves or dies, or the power fails. */
  predicate Abandons(step: Step, p: nat) {
    step == Raise(p) || step == Leave(p) || step.PowerLoss?
  }

  lemma AbandonedDisk(w: World, s: State, p: nat, k: nat)
    requires ValidWorld(w) && Inv(w, s) && Unanswered(PcOf(s, p)) && s.synced <= k <= |s.disk|
    ensures Stuck(w, s.disk[..k])
  {
    hide ReadLedger, Line, Disciplined, InvokedWithin, LockInv, TraceInv, Fits, Room, EndsWith;
    assert PcInv(w, s, p);
    var pc := PcOf(s, p);
    if pc.Appending? {
      var written := |Line(pc.item)| - |pc.left|;
      assert s.disk[..k] == pc.base + Line(pc.item)[..k - |pc.base|];
      TornAppend(w.digest, pc.base, pc.item, k - |pc.base|) by { RoomFor(pc.base, pc.item); }
    } else {
      assert s.disk[..k] == s.disk;
      if pc.Flushed? {
        FlushedIsOpen(w, pc.base, pc.item) by { RoomFor(pc.base, pc.item); }
      } else if !pc.Returned? {
        AnnouncedIsOpen(w, p, pc, s.disk);
      }
    }
  }

  /** Whatever one more line is read as, after a journal without an open intent it opens one. */
  lemma FlushedIsOpen(w: World, base: string, item: Item)
    requires ReadLedger(w.digest, base).Some? && ReadLedger(w.digest, base).value.pending == None
    requires |base| + |Line(item)| <= MAX_JOURNAL_BYTES
    ensures Stuck(w, base + Line(item))
  {
    hide ReadLedger, Fits, Line;
    if ReadLedger(w.digest, base + Line(item)).Some? {
      ReadWhole(w.digest, base, item);
      ReadIsJournal(w.digest, base + Line(item));
      var front := ReadLedger(w.digest, base).value.items;
      var items := ReadLedger(w.digest, base + Line(item)).value.items;
      LastFits(w.digest, items, front, Last(items));
      ReadIsJournal(w.digest, base);
      FitsPairs(w.digest, LedgerOf(front), Last(items));
    }
  }

  lemma RoomFor(base: string, item: Item)
    requires Room(base, item)
    ensures |Line(item)| <= MAX_RECORD_BYTES && |base| + |Line(item)| <= MAX_JOURNAL_BYTES
  {
    hide Line;
  }

  lemma AnnouncedIsOpen(w: World, p: nat, pc: Pc, journal: string)
    requires pc.Announced? || pc.Confirmed?
    requires Announces(w, p, pc.call, pc.intent, pc.base, journal)
    ensures Stuck(w, journal)
  {
    hide ReadLedger, Fits, Journal;
    ReadIsJournal(w.digest, journal);
    OpenIntent(ReadLedger(w.digest, journal).value.items);
  }

  lemma AbandonedIsBlocked(w: World, s: State, step: Step, p: nat)
    requires ValidWorld(w) && Inv(w, s) && Unanswered(PcOf(s, p))
    requires Abandons(step, p) && Enabled(w, s, step)
    ensures Blocked(w, Apply(w, s, step))
  {
    hide ReadLedger, Line, TraceInv, PcInv, Unanswered, Stuck;
    var t := Apply(w, s, step);
    assert TraceInv(w, s) && s.synced <= |s.disk| by { SyncedWithin(w, s); }
    assert Live(PcOf(s, p)) by { UnansweredIsLive(PcOf(s, p)); }
    forall q ensures Live(PcOf(t, q)) ==> PcOf(t, q).Idle? {
    }
    forall k | t.synced <= k <= |t.disk| ensures Stuck(w, t.disk[..k]) {
      AbandonedDisk(w, s, p, k);
      assert t.disk[..k] == s.disk[..k];
    }
  }

  lemma SyncedWithin(w: World, s: State)
    requires TraceInv(w, s)
    ensures s.synced <= |s.disk|
  {
  }

  lemma UnansweredIsLive(pc: Pc)
    requires Unanswered(pc)
    ensures Live(pc)
  {
  }

  /** In every run: once an instance stops performing after its intent became durable and
      before its result was completely written, no effect is ever invoked again, by anyone. */
  lemma AbandonedIntentBlocksForever(w: World, before: seq<Step>, s: State, p: nat, step: Step, after: seq<Step>,
                                     t: State)
    requires ValidWorld(w) && Reaches(w, START, before, s)
    requires Unanswered(PcOf(s, p)) && Abandons(step, p) && Enabled(w, s, step)
    requires Reaches(w, Apply(w, s, step), after, t)
    ensures Quiet(s.trace, t.trace)
  {
    hide Enabled, Unanswered, Blocked, Inv;
    StartInv(w);
    InvAlong(w, START, before, s);
    AbandonedIsBlocked(w, s, step, p);
    BlockedForever(w, Apply(w, s, step), after, t);
    AbandonIsQuiet(w, s, step, p);
  }

  lemma AbandonIsQuiet(w: World, s: State, step: Step, p: nat)
    requires Abandons(step, p) && Enabled(w, s, step)
    ensures Quiet(s.trace, Apply(w, s, step).trace)
  {
    assert s.trace + [] == s.trace;
  }

  function AfterPowerLoss(w: World, s: State, kept: nat): State
    requires s.synced <= kept <= |s.disk|
  {
    Apply(w, s, PowerLoss(kept))
  }

  /** Durability matters: when a process dies before its intent is flushed and the power
      failure takes that record away, the journal that is left admits new work. */
  lemma UnflushedIntentMayVanish(w: World, s: State, p: nat, kept: nat)
    requires Inv(w, s) && PcOf(s, p).Appending? && PcOf(s, p).answers == None
    requires s.synced <= kept <= |s.disk| && kept == |PcOf(s, p).base|
    ensures !Stuck(w, AfterPowerLoss(w, s, kept).disk)
  {
    hide ReadLedger, Line, Disciplined, InvokedWithin, TraceInv, Fits, Room, EndsWith;
    assert PcInv(w, s, p);
    assert s.disk[..kept] == PcOf(s, p).base;
  }

  lemma ReachesStart(w: World, s: State)
    ensures Reaches(w, s, [], s)
  {
  }

  lemma {:induction false} ReachesMore(w: World, s: State, steps: seq<Step>, t: State, step: Step)
    requires Reaches(w, s, steps, t) && Enabled(w, t, step)
    ensures Reaches(w, s, steps + [step], Apply(w, t, step))
    decreases |steps|
  {
    hide Enabled, Apply;
    if steps == [] {
      assert ([] + [step])[0] == step && ([] + [step])[1..] == [];
      assert Reaches(w, Apply(w, t, step), [], Apply(w, t, step));
    } else {
      ReachesMore(w, Apply(w, s, steps[0]), steps[1..], t, step);
      assert (steps + [step])[1..] == steps[1..] + [step];
    }
  }
}
