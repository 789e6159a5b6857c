/** The guard itself: one instance of the class per `with` block, over a directory that
    other instances share.  Every method is proved to be a path of the runs in GuardRuns. */
module ExecutionGuard {
  import opened Prelude
  import opened GuardJournal
  import opened GuardJournalFacts
  import opened GuardRuns
  import opened GuardClaims
  import opened GuardProgress
  import opened RecordSize

  /** The private directory: who holds the flock, the journal file, and how much of it has
      been flushed.  The ghost fields are the same directory in the model of runs and how often
      the device took nothing. */
  class Directory {
    var owner: Option<nat>
    var journal: string
    var synced: nat
    ghost var run: State
    ghost var faults: nat

    ghost predicate Valid()
      reads this
    {
      run.owner == owner && run.disk == journal && run.synced == synced
    }

    constructor ()
      ensures Valid() && run == START && faults == 0
    {
      owner, journal, synced, run, faults := None, "", 0, START, 0;
    }

    /** os.write: takes any number of the bytes, perhaps none. */
    method OsWrite(data: string) returns (n: nat)
      modifies this`journal, this`faults
      ensures n <= |data| && journal == old(journal) + data[..n]
      ensures faults == old(faults) + if n == 0 then 1 else 0
    {
      n :| 0 <= n <= |data|;
      journal := journal + data[..n];
      faults := faults + if n == 0 then 1 else 0;
    }

    method Fsync()
      modifies this`synced
      ensures synced == |journal|
    {
      synced := |journal|;
    }

    ghost method Take(w: World, step: Step)
      requires Enabled(w, run, step)
      modifies this`run
      ensures run == Apply(w, old(run), step)
    {
      run := Apply(w, run, step);
    }
  }

  class Guard {
    const world: World
    const index: nat
    const directory: Directory
    var used: bool
    var held: bool

    ghost predicate Valid()
      reads this, directory
    {
      && directory.Valid() && ValidWorld(world)
      && (held <==> Live(PcOf(directory.run, index)))
      && (held ==> directory.owner == Some(index))
      && (!used ==> PcOf(directory.run, index).Fresh?)
    }

    constructor (world: World, index: nat, directory: Directory)
      requires directory.Valid() && ValidWorld(world) && PcOf(directory.run, index).Fresh?
      ensures Valid() && !used && !held && this.world == world && this.index == index && this.directory == directory
    {
      this.world, this.index, this.directory := world, index, directory;
      used, held := false, false;
    }

    /** __enter__: refused when reused, when the lock is busy, or when the journal is not
        accepted; a refusal leaves the lock as it was. */
    method Enter() returns (r: Result<()>)
      requires Valid()
      modifies this, directory
      ensures Valid() && used
      ensures r.Ok? <==> !old(used) && old(directory.owner) == None && ReadLedger(world.digest, directory.journal).Some?
      ensures held <==> r.Ok? || old(held)
      ensures directory.owner == if r.Ok? then Some(index) else old(directory.owner)
      ensures directory.journal == old(directory.journal) && directory.synced == old(directory.synced)
      ensures r.Ok? ==> Enabled(world, old(directory.run), GuardRuns.Enter(index))
      ensures r.Ok? ==> directory.run == Apply(world, old(directory.run), GuardRuns.Enter(index))
    {
      if used {
        return Err("guard instances cannot be reused");
      }
      used := true;
      if directory.owner != None {
        directory.Take(world, GuardRuns.Refuse(index));
        return Err("another executor owns the kernel lock");
      }
      directory.owner := Some(index);
      var records := ReadRecords(world.digest, directory.journal);
      if records == None {
        directory.owner := None;
        directory.Take(world, GuardRuns.Refuse(index));
        return Err("journal requires reconciliation");
      }
      held := true;
      directory.Take(world, GuardRuns.Enter(index));
      return Ok(());
    }

    /** __exit__. */
    method Close()
      requires Valid() && held
      modifies this, directory
      ensures Valid() && !held && used == old(used)
      ensures directory.owner == None && directory.journal == old(directory.journal)
      ensures Enabled(world, old(directory.run), Leave(index))
      ensures directory.run == Apply(world, old(directory.run), Leave(index))
    {
      directory.owner := None;
      held := false;
      directory.Take(world, Leave(index));
    }

    /** The write loop, the flush and the readback of _append, for a record whose writing has
        begun.  On failure the journal holds some prefix of the record after what it held. */
    method WriteRecord(item: Item, ghost start: State, ghost done: seq<Step>) returns (ok: bool, ghost steps: seq<Step>)
      requires Valid() && held && PcOf(directory.run, index).Appending?
      requires PcOf(directory.run, index).item == item && PcOf(directory.run, index).left == Line(item)
      requires PcOf(directory.run, index).base == directory.journal
      requires Reaches(world, start, done, directory.run)
      modifies directory
      ensures Valid()
      ensures Reaches(world, start, steps, directory.run)
      ensures directory.owner == old(directory.owner)
      ensures exists k :: 0 <= k <= |Line(item)| && directory.journal == old(directory.journal) + Line(item)[..k]
      ensures ok ==>
        && directory.journal == old(directory.journal) + Line(item) && directory.synced == |directory.journal|
        && ReadLedger(world.digest, directory.journal).Some?
        && ReadLedger(world.digest, directory.journal).value.items != []
        && Last(ReadLedger(world.digest, directory.journal).value.items) == item
      ensures ok ==> var was := old(PcOf(directory.run, index));
        PcOf(directory.run, index) == Flushed(was.call, item, was.answers, old(directory.journal))
      ensures !ok ==> PcOf(directory.run, index).Idle?
      ensures directory.run.trace == old(directory.run.trace)
      ensures directory.faults >= old(directory.faults)
      ensures Acceptable(old(directory.journal), item) && directory.faults == old(directory.faults) ==> ok
    {
      hide ReadLedger, Line, Reaches, Enabled, Apply, Acceptable;
      var data := Line(item);
      var remaining := data;
      ghost var base, pc := directory.journal, PcOf(directory.run, index);
      steps := done;
      assert data[..0] == "" && base + "" == base;
      while remaining != ""
        invariant Valid() && directory.owner == old(directory.owner)
        invariant Reaches(world, start, steps, directory.run)
        invariant PcOf(directory.run, index) == pc.(left := remaining)
        invariant |remaining| <= |data| && remaining == data[|data| - |remaining|..]
        invariant directory.journal == base + data[..|data| - |remaining|]
        invariant directory.run.trace == old(directory.run.trace)
        invariant directory.faults == old(directory.faults)
        decreases |remaining|
      {
        var n := directory.OsWrite(remaining);
        if n == 0 {
          assert directory.journal == base + data[..|data| - |remaining|];
          ok := false;
          steps := Stop(start, steps);
          return;
        }
        assert data[..|data| - |remaining|] + remaining[..n] == data[..|data| - |remaining[n..]|];
        steps := TakeWrite(start, steps, n);
        remaining := remaining[n..];
      }
      assert data[..|data|] == data;
      directory.Fsync();
      steps := TakeFlush(start, steps);
      var records := ReadRecords(world.digest, directory.journal);
      if Acceptable(base, item) { ReadsBack(base, item); }
      ok := records.Some? && records.value.items != [] && Last(records.value.items) == item;
      if !ok {
        steps := Stop(start, steps);
      }
    }

    /** The next record of this journal, with room for it. */
    ghost predicate Acceptable(journal: string, item: Item) {
      && ReadLedger(world.digest, journal).Some? && Room(journal, item)
      && Fits(world.digest, ReadLedger(world.digest, journal).value, item)
    }

    lemma ReadsBack(journal: string, item: Item)
      requires ValidWorld(world) && Acceptable(journal, item)
      ensures var led := ReadLedger(world.digest, journal + Line(item));
        led.Some? && led.value.items != [] && Last(led.value.items) == item
    {
      hide ReadLedger, Line, Fits;
      WrittenReadsBack(world, journal, item);
      LastOfExtend(ReadLedger(world.digest, journal).value, item);
    }

    ghost method TakeWrite(start: State, done: seq<Step>, n: nat) returns (steps: seq<Step>)
      requires PcOf(directory.run, index).Appending? && 0 < n <= |PcOf(directory.run, index).left|
      requires directory.run.disk + PcOf(directory.run, index).left[..n] == directory.journal
      requires directory.run.owner == directory.owner && directory.run.synced == directory.synced
      requires Reaches(world, start, done, directory.run)
      modifies directory`run
      ensures directory.Valid() && Reaches(world, start, steps, directory.run)
      ensures PcOf(directory.run, index) ==
        old(PcOf(directory.run, index)).(left := old(PcOf(directory.run, index)).left[n..])
      ensures directory.run.trace == old(directory.run.trace)
    {
      hide ReadLedger, Line, Reaches;
      ReachesMore(world, start, done, directory.run, Write(index, n));
      assert directory.run.trace + [] == directory.run.trace;
      directory.Take(world, Write(index, n));
      steps := done + [Write(index, n)];
    }

    ghost method TakeFlush(start: State, done: seq<Step>) returns (steps: seq<Step>)
      requires directory.run.disk == directory.journal && directory.run.owner == directory.owner
      requires directory.synced == |directory.journal|
      requires PcOf(directory.run, index).Appending? && PcOf(directory.run, index).left == ""
      requires Reaches(world, start, done, directory.run)
      modifies directory`run
      ensures directory.Valid() && Reaches(world, start, steps, directory.run)
      ensures var pc := old(PcOf(directory.run, index));
        PcOf(directory.run, index) == Flushed(pc.call, pc.item, pc.answers, pc.base)
      ensures directory.run.trace == old(directory.run.trace)
    {
      hide ReadLedger, Line, Reaches;
      ReachesMore(world, start, done, directory.run, Flush(index));
      assert directory.run.trace + [] == directory.run.trace;
      directory.Take(world, Flush(index));
      steps := done + [Flush(index)];
    }

    /** An exception that leaves the instance inside its block. */
    ghost method Stop(start: State, done: seq<Step>) returns (steps: seq<Step>)
      requires Valid() && held && Reaches(world, start, done, directory.run)
      modifies directory`run
      ensures Valid() && Reaches(world, start, steps, directory.run)
      ensures PcOf(directory.run, index).Idle? && directory.run.trace == old(directory.run.trace)
    {
      hide ReadLedger, Line, Reaches;
      assert directory.run.trace + [] == directory.run.trace;
      ReachesMore(world, start, done, directory.run, Raise(index));
      directory.Take(world, Raise(index));
      steps := done + [Raise(index)];
    }

    /** One step that changes nothing outside the model of runs. */
    ghost method TakeStep(start: State, done: seq<Step>, step: Step) returns (steps: seq<Step>)
      requires directory.Valid() && Reaches(world, start, done, directory.run)
      requires Enabled(world, directory.run, step)
      requires step.Begin? || step.ReadBack? || step.Confirm? || step.Invoke? || step.Finish?
      modifies directory`run
      ensures directory.Valid() && Reaches(world, start, steps, directory.run)
      ensures directory.run == Apply(world, old(directory.run), step)
    {
      hide ReadLedger, Line, Reaches, Record, Room;
      ReachesMore(world, start, done, directory.run, step);
      directory.Take(world, step);
      steps := done + [step];
    }

    /** _append of the intent, from the first observation to the readback. */
    method AppendIntent(call: Call, id: string, at: string, ghost start: State)
        returns (ok: bool, ghost steps: seq<Step>, intent: Item)
      requires Valid() && held && PcOf(directory.run, index).Idle? && directory.run == start
      requires ValidCall(call) && IsUuid(id) && IsUtcTime(at)
      requires ReadLedger(world.digest, directory.journal).Some?
      requires ReadLedger(world.digest, directory.journal).value.pending == None
      modifies directory
      ensures Valid() && Reaches(world, start, steps, directory.run)
      ensures directory.owner == old(directory.owner) && old(directory.journal) <= directory.journal
      ensures ok ==>
        && directory.journal == old(directory.journal) + Line(intent)
        && PcOf(directory.run, index) == Announced(call, intent, old(directory.journal))
        && directory.run.trace == start.trace + [Observed(index, call.expected), IntentDurable(index, intent)]
      ensures !ok ==>
        && PcOf(directory.run, index).Idle?
        && directory.run.trace in {start.trace, start.trace + [Observed(index, call.expected)]}
      ensures intent == IntentRecord(world, index, old(directory.journal), call, at, id)
      ensures intent.body.payload == Intent(id, call.action, call.target, call.expected) && intent.body.at == at
      ensures ok ==> Opened(directory.journal, old(directory.journal), intent)
      ensures directory.faults >= old(directory.faults)
      ensures directory.faults == old(directory.faults) && Room(old(directory.journal), intent) ==>
        id !in ReadLedger(world.digest, old(directory.journal)).value.used ==> ok
    {
      hide ReadLedger, Line, Reaches, ValidCall, Room, Opened, IntentRecord, Acceptable, Enabled, Apply;
      hide IsUtcTime, IsUuid;
      ghost var before := directory.journal;
      steps := [];
      ReachesStart(world, start);
      var ledger := ReadRecords(world.digest, directory.journal);
      intent := IntentRecord(world, index, directory.journal, call, at, id);
      IntentSays(directory.journal, call, at, id);
      if !Room(directory.journal, intent) {
        return false, steps, intent;
      }
      steps := TakeBegin(call, id, at, start);
      ok, steps := WriteRecord(intent, start, steps);
      if ok {
        OpensIntent(before, call, at, id);
        steps := TakeReadBack(start, steps);
      }
    }

    lemma IntentSays(journal: string, call: Call, at: string, id: string)
      requires ReadLedger(world.digest, journal).Some?
      ensures var body := IntentRecord(world, index, journal, call, at, id).body;
        body.payload == Intent(id, call.action, call.target, call.expected) && body.at == at
    {
      hide ReadLedger;
    }

    /** The checks have passed and the first observation is as expected. */
    ghost method TakeBegin(call: Call, id: string, at: string, start: State) returns (steps: seq<Step>)
      requires Valid() && held && PcOf(directory.run, index).Idle? && directory.run == start
      requires ValidCall(call) && IsUuid(id) && IsUtcTime(at)
      requires ReadLedger(world.digest, directory.journal).Some?
      requires ReadLedger(world.digest, directory.journal).value.pending == None
      requires Room(directory.journal, IntentRecord(world, index, directory.journal, call, at, id))
      modifies directory`run
      ensures Valid() && Reaches(world, start, steps, directory.run)
      ensures var intent := IntentRecord(world, index, directory.journal, call, at, id);
        && PcOf(directory.run, index) == Appending(call, intent, None, directory.journal, Line(intent))
        && (id !in ReadLedger(world.digest, directory.journal).value.used ==> Acceptable(directory.journal, intent))
      ensures directory.run.trace == start.trace + [Observed(index, call.expected)]
    {
      hide ReadLedger, Line, Reaches, ValidCall, Room, IntentRecord, Acceptable, IsUtcTime, IsUuid;
      ReachesStart(world, start);
      BeginFits(start, call, at, id);
      steps := TakeStep(start, [], Begin(index, call, at, id));
    }

    /** The record was read back. */
    ghost method TakeReadBack(start: State, done: seq<Step>) returns (steps: seq<Step>)
      requires Valid() && held && PcOf(directory.run, index).Flushed? && Reaches(world, start, done, directory.run)
      requires ReadLedger(world.digest, directory.journal).Some?
      requires ReadLedger(world.digest, directory.journal).value.items != []
      requires Last(ReadLedger(world.digest, directory.journal).value.items) == PcOf(directory.run, index).item
      modifies directory`run
      ensures Valid() && Reaches(world, start, steps, directory.run)
      ensures var was := old(PcOf(directory.run, index));
        if was.answers == None
        then PcOf(directory.run, index) == Announced(was.call, was.item, was.base)
             && directory.run.trace == old(directory.run.trace) + [IntentDurable(index, was.item)]
        else PcOf(directory.run, index).Idle?
             && directory.run.trace == old(directory.run.trace) + [ResultDurable(index, was.item)]
    {
      hide ReadLedger, Line, Reaches;
      steps := TakeStep(start, done, ReadBack(index));
    }

    /** The journal is the old one and this intent, which is open. */
    ghost predicate Opened(journal: string, before: string, intent: Item) {
      && ReadLedger(world.digest, before).Some? && ReadLedger(world.digest, journal).Some?
      && ReadLedger(world.digest, journal).value.items == ReadLedger(world.digest, before).value.items + [intent]
      && ReadLedger(world.digest, journal).value.pending == Some(intent)
      && intent.body.runId == world.who(index).runId && intent.body.invocation == world.who(index).invocation
    }

    lemma BeginFits(s: State, call: Call, at: string, id: string)
      requires ValidWorld(world) && Enabled(world, s, Begin(index, call, at, id))
      ensures id !in ReadLedger(world.digest, s.disk).value.used ==>
        Acceptable(s.disk, IntentRecord(world, index, s.disk, call, at, id))
    {
      BeginIsEnabled(world, s, index, call, at, id);
      hide ReadLedger, Fits, Room, Enabled, IntentRecord;
      if id !in ReadLedger(world.digest, s.disk).value.used {
        IntentIsAcceptable(world, index, s, call, at, id);
      }
    }

    lemma OpensIntent(before: string, call: Call, at: string, id: string)
      requires ReadLedger(world.digest, before).Some?
      requires var intent := IntentRecord(world, index, before, call, at, id);
        && Room(before, intent) && ReadLedger(world.digest, before + Line(intent)).Some?
        && ReadLedger(world.digest, before + Line(intent)).value.items != []
        && Last(ReadLedger(world.digest, before + Line(intent)).value.items) == intent
      ensures var intent := IntentRecord(world, index, before, call, at, id);
        Opened(before + Line(intent), before, intent)
    {
      hide ReadLedger, Line;
      ReadWhole(world.digest, before, IntentRecord(world, index, before, call, at, id));
    }

    /** The second observation and the callback. */
    ghost method Invocation(call: Call, intent: Item, start: State, done: seq<Step>) returns (steps: seq<Step>)
      requires Valid() && held && PcOf(directory.run, index).Announced?
      requires PcOf(directory.run, index).call == call && PcOf(directory.run, index).intent == intent
      requires Reaches(world, start, done, directory.run)
      modifies directory`run
      ensures Valid() && Reaches(world, start, steps, directory.run)
      ensures PcOf(directory.run, index) == Returned(call, intent)
      ensures directory.run.trace == old(directory.run.trace) +
        [Observed(index, call.expected),
         Invoked(index, call, intent, old(PcOf(directory.run, index).base), directory.journal)]
    {
      hide ReadLedger, Line, Reaches, Record, ValidCall, Room;
      steps := TakeStep(start, done, Confirm(index));
      steps := TakeStep(start, steps, GuardRuns.Invoke(index));
    }

    /** _append of the result. */
    method AppendResult(call: Call, intent: Item, outcome: Outcome, evidence: string, at: string, ghost start: State,
                        ghost done: seq<Step>)
        returns (r: Result<Item>, ghost steps: seq<Step>)
      requires Valid() && held && PcOf(directory.run, index) == Returned(call, intent)
      requires IsHex(evidence, 64) && IsUtcTime(at) && Reaches(world, start, done, directory.run)
      modifies directory
      ensures Valid() && Reaches(world, start, steps, directory.run) && PcOf(directory.run, index).Idle?
      ensures directory.owner == old(directory.owner) && old(directory.journal) <= directory.journal
      ensures r.Ok? ==>
        && directory.journal == old(directory.journal) + Line(r.value) && directory.synced == |directory.journal|
        && directory.run.trace == old(directory.run.trace) + [ResultDurable(index, r.value)]
      ensures r.Ok? ==> r.value.body.payload == Completion(intent.sha256, outcome, evidence) && r.value.body.at == at
      ensures r.Err? ==> directory.run.trace == old(directory.run.trace)
      ensures directory.faults >= old(directory.faults)
      ensures directory.faults == old(directory.faults) ==>
        Answerable(old(directory.journal), intent, outcome, evidence, at) ==> r.Ok?
    {
      hide ReadLedger, Line, Reaches, Record, Room, IsHex, IsUtcTime, IsUuid, ValidCall, Announces, InvokedWithin;
      hide Answerable, Acceptable;
      if Answerable(directory.journal, intent, outcome, evidence, at) {
        AnswerFits(directory.journal, intent, outcome, evidence, at);
      }
      var ledger := ReadRecords(world.digest, directory.journal);
      if ledger == None {
        steps := Stop(start, done);
        return Err("journal requires reconciliation"), steps;
      }
      var item := ResultRecord(world, index, directory.journal, intent, at, outcome, evidence);
      if !Room(directory.journal, item) {
        steps := Stop(start, done);
        return Err("journal capacity requires review"), steps;
      }
      steps := TakeStep(start, done, Finish(index, outcome, evidence, at));
      assert directory.run.trace == old(directory.run.trace) + [];
      var ok: bool;
      ok, steps := WriteRecord(item, start, steps);
      if !ok {
        return Err("journal write or readback failed"), steps;
      }
      steps := TakeReadBack(start, steps);
      ResultSays(old(directory.journal), intent, outcome, evidence, at);
      r := Ok(item);
    }

    lemma ResultSays(journal: string, intent: Item, outcome: Outcome, evidence: string, at: string)
      requires ReadLedger(world.digest, journal).Some?
      ensures var body := ResultRecord(world, index, journal, intent, at, outcome, evidence).body;
        body.payload == Completion(intent.sha256, outcome, evidence) && body.at == at
    {
      hide ReadLedger;
    }

    /** The intent is open, this instance's own, and there is room for its result. */
    ghost predicate Answerable(journal: string, intent: Item, outcome: Outcome, evidence: string, at: string) {
      && ReadLedger(world.digest, journal).Some? && ReadLedger(world.digest, journal).value.pending == Some(intent)
      && intent.body.runId == world.who(index).runId && intent.body.invocation == world.who(index).invocation
      && Room(journal, ResultRecord(world, index, journal, intent, at, outcome, evidence))
    }

    lemma AnswerFits(journal: string, intent: Item, outcome: Outcome, evidence: string, at: string)
      requires ValidWorld(world) && Answerable(journal, intent, outcome, evidence, at)
      requires IsHex(evidence, 64) && IsUtcTime(at)
      ensures ReadLedger(world.digest, journal).Some?
      ensures Room(journal, ResultRecord(world, index, journal, intent, at, outcome, evidence))
      ensures Acceptable(journal, ResultRecord(world, index, journal, intent, at, outcome, evidence))
    {
      hide ReadLedger, Room, Fits, IsHex, IsUtcTime, ResultRecord;
      ResultIsAcceptable(world, index, journal, intent, at, outcome, evidence);
    }

    /** What a perform does up to and including its callback, in order. */
    ghost function Effects(call: Call, intent: Item, before: string): (events: seq<Event>)
      ensures |events| == 4
    {
      [Observed(index, call.expected), IntentDurable(index, intent), Observed(index, call.expected),
       Invoked(index, call, intent, before, before + Line(intent))]
    }

    /** perform after its intent is recorded: the second observation, the callback, the result. */
    method RunEffect(call: Call, intent: Item, second: Option<Context>, outcome: Option<(Outcome, string)>,
                     later: string, ghost before: string, ghost start: State, ghost done: seq<Step>)
        returns (r: Result<Item>, ghost steps: seq<Step>, ghost reached: nat)
      requires Valid() && held && PcOf(directory.run, index) == Announced(call, intent, before)
      requires directory.journal == before + Line(intent) && IsUtcTime(later)
      requires Reaches(world, start, done, directory.run)
      requires directory.run.trace == start.trace + [Observed(index, call.expected), IntentDurable(index, intent)]
      modifies directory
      ensures Valid() && PcOf(directory.run, index).Idle? && Reaches(world, start, steps, directory.run)
      ensures directory.owner == old(directory.owner) && old(directory.journal) <= directory.journal
      ensures (reached == 2 || reached == 4) && (second != Some(call.expected) ==> reached == 2)
      ensures directory.run.trace == start.trace + Effects(call, intent, before)[..reached] + Finished(r)
      ensures r.Ok? ==> reached == 4 && outcome.Some?
      ensures r.Ok? ==>
        r.value.body.payload == Completion(intent.sha256, outcome.value.0, outcome.value.1) && r.value.body.at == later
      ensures r.Ok? ==>
        directory.journal == old(directory.journal) + Line(r.value) && directory.synced == |directory.journal|
      ensures directory.faults >= old(directory.faults)
      ensures directory.faults == old(directory.faults) && second == Some(call.expected) && outcome.Some? ==>
        IsHex(outcome.value.1, 64) ==>
        Answerable(old(directory.journal), intent, outcome.value.0, outcome.value.1, later) ==> r.Ok?
    {
      hide ReadLedger, Line, Reaches, Record, ValidCall, Room, Enabled, Apply, Answerable;
      EffectsUpTo(call, intent, before, start.trace, directory.run.trace, 2);
      if second != Some(call.expected) {
        steps := Stop(start, done);
        return Err("context changed after intent; no effect attempted"), steps, 2;
      }
      steps := Invocation(call, intent, start, done);
      EffectsAll(call, intent, before, start.trace);
      if outcome == None || !IsHex(outcome.value.1, 64) {
        steps := Stop(start, steps);
        return Err("callback outcome not established"), steps, 4;
      }
      r, steps := AppendResult(call, intent, outcome.value.0, outcome.value.1, later, start, steps);
      reached := 4;
    }

    /** perform: `first` and `second` are what the two observations return and `outcome` is what
        the callback returns; None stands for an exception.  The call is refused before any write
        when a check or the first observation fails or an intent is open; it runs the callback
        only between its durable intent and a second equal observation. */
    method Perform(call: Call, first: Option<Context>, second: Option<Context>,
                   outcome: Option<(Outcome, string)>, id: string, at: string, later: string)
        returns (r: Result<Item>, ghost steps: seq<Step>, intent: Item, ghost reached: nat)
      requires Valid() && held && PcOf(directory.run, index).Idle?
      requires IsUuid(id) && IsUtcTime(at) && IsUtcTime(later)
      modifies directory
      ensures Valid() && PcOf(directory.run, index).Idle?
      ensures Reaches(world, old(directory.run), steps, directory.run)
      ensures directory.owner == old(directory.owner) && old(directory.journal) <= directory.journal
      ensures !(InOrder(call) && first == Some(call.expected)
                && ReadLedger(world.digest, old(directory.journal)).Some?
                && ReadLedger(world.digest, old(directory.journal)).value.pending == None)
              ==> r.Err? && directory.journal == old(directory.journal)
                  && directory.run.trace == old(directory.run.trace)
      ensures reached <= 4 && (second != Some(call.expected) ==> reached <= 2)
      ensures directory.run.trace ==
        old(directory.run.trace) + Effects(call, intent, old(directory.journal))[..reached] + Finished(r)
      ensures r.Ok? ==> reached == 4 && outcome.Some?
      ensures r.Ok? ==>
        && intent.body.payload == Intent(id, call.action, call.target, call.expected) && intent.body.at == at
        && r.value.body.payload == Completion(intent.sha256, outcome.value.0, outcome.value.1)
        && r.value.body.at == later
      ensures r.Ok? ==>
        directory.journal == old(directory.journal) + Line(intent) + Line(r.value)
        && directory.synced == |directory.journal|
      // When the device takes something of every write, a call that is in order goes through.
      ensures directory.faults >= old(directory.faults)
      ensures directory.faults == old(directory.faults) && InOrder(call) && Roomy(old(directory.journal), call, id) ==>
        first == second == Some(call.expected) && outcome.Some? && LowerHex(outcome.value.1, 64) ==> r.Ok?
    {
      hide ReadLedger, Line, Reaches, Record, ValidCall, Room, Enabled, Apply, IsUtcTime, IsUuid;
      hide InOrder, LowerHex, IsHex, Roomy, Effects;
      ValidMeansInOrder(call);
      if outcome.Some? { LowerHexIs(outcome.value.1, 64); }
      steps, reached := [], 0;
      ReachesStart(world, directory.run);
      var payload := Intent(id, call.action, call.target, call.expected);
      intent := Item(Body(at, world.who(index).invocation, payload, "", "", 0), "");
      EffectsNone(call, intent, directory.journal, directory.run.trace);
      RoomyMeans(directory.journal, call, id);
      if !ValidCall(call) {
        return Err("invalid effect request"), steps, intent, 0;
      }
      var ledger := ReadRecords(world.digest, directory.journal);
      if ledger == None || ledger.value.pending.Some? {
        return Err("prior intent requires external evidence reconciliation, never replay"), steps, intent, 0;
      }
      if first != Some(call.expected) {
        return Err("current context differs before intent"), steps, intent, 0;
      }
      r, steps, intent, reached := Carry(call, second, outcome, id, at, later);
    }

    /** perform once its checks have passed and the first observation was as expected. */
    method Carry(call: Call, second: Option<Context>, outcome: Option<(Outcome, string)>, id: string, at: string,
                 later: string)
        returns (r: Result<Item>, ghost steps: seq<Step>, intent: Item, ghost reached: nat)
      requires Valid() && held && PcOf(directory.run, index).Idle? && ValidCall(call)
      requires IsUuid(id) && IsUtcTime(at) && IsUtcTime(later)
      requires ReadLedger(world.digest, directory.journal).Some?
      requires ReadLedger(world.digest, directory.journal).value.pending == None
      modifies directory
      ensures Valid() && PcOf(directory.run, index).Idle?
      ensures Reaches(world, old(directory.run), steps, directory.run)
      ensures directory.owner == old(directory.owner) && old(directory.journal) <= directory.journal
      ensures reached <= 4 && (second != Some(call.expected) ==> reached <= 2)
      ensures directory.run.trace ==
        old(directory.run.trace) + Effects(call, intent, old(directory.journal))[..reached] + Finished(r)
      ensures r.Ok? ==> reached == 4 && outcome.Some?
      ensures r.Ok? ==>
        && intent.body.payload == Intent(id, call.action, call.target, call.expected) && intent.body.at == at
        && r.value.body.payload == Completion(intent.sha256, outcome.value.0, outcome.value.1)
        && r.value.body.at == later
      ensures r.Ok? ==>
        directory.journal == old(directory.journal) + Line(intent) + Line(r.value)
        && directory.synced == |directory.journal|
      ensures directory.faults >= old(directory.faults)
      ensures directory.faults == old(directory.faults) && Roomy(old(directory.journal), call, id) ==>
        second == Some(call.expected) && outcome.Some? && IsHex(outcome.value.1, 64) ==> r.Ok?
    {
      hide ReadLedger, Line, Reaches, Record, ValidCall, Room, Enabled, Apply, IsUtcTime, IsUuid;
      hide IsHex, Short, Answerable, Opened, IntentRecord;
      ghost var start, before := directory.run, directory.journal;
      if Roomy(before, call, id) && outcome.Some? && IsHex(outcome.value.1, 64) {
        BothHaveRoom(start, call, id, at, outcome.value.0, outcome.value.1, later);
      }
      var ok: bool;
      ok, steps, intent := AppendIntent(call, id, at, start);
      reached := if ok then 2 else if directory.run.trace == start.trace then 0 else 1;
      EffectsUpTo(call, intent, before, start.trace, directory.run.trace, reached);
      if !ok {
        return Err("intent not recorded"), steps, intent, reached;
      }
      r, steps, reached := RunEffect(call, intent, second, outcome, later, before, start, steps);
    }

    /** In a roomy journal the intent fits, and its result once it is open. */
    lemma BothHaveRoom(s: State, call: Call, id: string, at: string, outcome: Outcome, evidence: string, later: string)
      requires ValidWorld(world) && ValidCall(call) && Roomy(s.disk, call, id) && IsHex(evidence, 64)
      requires IsUuid(id) && IsUtcTime(at) && IsUtcTime(later)
      ensures var intent := IntentRecord(world, index, s.disk, call, at, id); var more := s.disk + Line(intent);
        && Room(s.disk, intent)
        && (Opened(more, s.disk, intent) ==> Answerable(more, intent, outcome, evidence, later))
    {
      hide ReadLedger, Line, Room, IsHex, ValidCall, IsUuid, IsUtcTime, Short;
      BothFit(world, s, index, call, at, id, outcome, evidence, later);
    }

    /** No open intent, an identity that is new, and room for two records of a call whose generation
        is no number of more than a hundred digits. */
    ghost predicate Roomy(journal: string, call: Call, id: string) {
      && ReadLedger(world.digest, journal).Some? && ReadLedger(world.digest, journal).value.pending == None
      && id !in ReadLedger(world.digest, journal).value.used
      && |journal| + 16384 <= 2097152 && Short(call.expected.generation)
    }

    lemma RoomyMeans(journal: string, call: Call, id: string)
      ensures Roomy(journal, call, id) ==>
        ReadLedger(world.digest, journal).Some? && ReadLedger(world.digest, journal).value.pending == None
    {
    }

    lemma EffectsNone(call: Call, intent: Item, before: string, was: seq<Event>)
      ensures was == was + Effects(call, intent, before)[..0] + []
    {
    }

    lemma EffectsUpTo(call: Call, intent: Item, before: string, was: seq<Event>, trace: seq<Event>, n: nat)
      requires n <= 2
      requires trace == was + [Observed(index, call.expected), IntentDurable(index, intent)][..n]
      ensures trace == was + Effects(call, intent, before)[..n] + []
    {
      assert [Observed(index, call.expected), IntentDurable(index, intent)][..n] == Effects(call, intent, before)[..n];
    }

    lemma EffectsAll(call: Call, intent: Item, before: string, was: seq<Event>)
      ensures was + [Observed(index, call.expected), IntentDurable(index, intent)]
        + [Observed(index, call.expected), Invoked(index, call, intent, before, before + Line(intent))]
        == was + Effects(call, intent, before)[..4]
    {
      hide Line;
    }

    ghost function Finished(r: Result<Item>): seq<Event> {
      if r.Ok? then [ResultDurable(index, r.value)] else []
    }
  }
}
