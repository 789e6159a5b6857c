# Verified model of the AIONEX operator protocols

The repository's operator scripts wrap small state machines, journals, parsers and exact checks in
file, process and network code. This project models that logic in Dafny and proves what the scripts
are relied on for, for every input, every run and every reachable state. Nothing here runs the
scripts.

The modules follow the scripts:

- `CanonicalJson`, `GuardJournal`, `GuardJournalFacts`: the hash-chained intent/result journal of the
  exclusive-effect guard, as text; `GuardClaims`: its records, calls and effects field by field. The digest
  is a function parameter; where the design relies on SHA-256 being free of collisions, the lemma says
  "equal, or here is a collision".
- `GuardRuns`: the guard as a transition system of any number of processes that enter, append byte by
  byte, observe, invoke, leave and die, with power losses that keep any flushed prefix.
  `RecordSize`, `GuardProgress`: records fit, an undisturbed perform goes through, and a run with an
  effect exists. `ExecutionGuard`: the class, each method proved to be a run of that system.
- `Installation`: the two-root publication with a death possible after every effect, among others who may
  put roots of their own at the target paths.
- `Enrollment`, `EnrollmentClaims`: run accounting over the anchored journal prefix, down to the text of
  event identities.
- `ProjectHub`, `ProjectClaims`, `NextWork`: the evidence-gated batch journal, what a release rests on in
  its receipts, and the search for the next batch.
- `RuntimeWatch`, `CapacityGuard`, `ExternalWatch`: alerting state machines, related to the whole trace
  of polls and delivery failures; `WatchClaims`, `CapacityClaims`, `ExternalClaims`: when each event is
  sent, in what was observed and measured.
- `WireCodec`, `ChunkedBody`, `ChunkClaims`, `HttpRetry`: WebSocket frames, chunked bodies and their size
  lines, and the retry loop over the bytes of its connections.
- `SemVer`, `LinkEvidence`, `Reachability`, `ReachabilityClaims`, `LinkedSafety`: the version order, the
  `go version -m` parser, the policy evaluation, and what PASS says about the lines of the evidence and
  about everything a binary is linked from.
- `AiGate`, `LoadMetrics`, `LoadVerdict`, `LoadClaims`: token bucket, sliding window, percentile, storms,
  verdict, and the verdict in terms of everything that was recorded.
- `AssetManifest`, `PortalIngress`, `PortalActivation`, `VaultProvision`, `RestoreIsolation`,
  `Certificate`: the tree manifest, the ingress rewrite with rollback, the vault unlock and provisioning
  with undo, the restore drill's network guard, and the 72-hour certificate. `AssetClaims`,
  `IngressClaims`, `ActivationClaims`, `CertificateClaims`: what these say on the names, positions and
  numbers of their inputs.

Code that changes state step by step is written as classes and methods with loops and is proved
against a specification function or relation; the lemmas state what holds of that specification.

Where the code does not do what its documentation or an evident reading promises, the model keeps the
code, shows an input and proves when it does:

- `RuntimeWatch`: delivered transition numbers can repeat. The notifier sees exactly the kept events if
  and only if no turn was undone after it had sent one; the numbers it sees are 1, 2, 3, ... if and only
  if every turn sent a stretch of its plan right behind what undone turns had sent.
- `CapacityGuard`: the same after a poll that raised once it had sent an event.
- `ExternalWatch`: the outage interval, with its start, is right if and only if the staleness bound is not
  negative.
- `PortalIngress`: the rewrite is idempotent if and only if the portal hostname is trimmed; otherwise an
  apply leaves the new rules in place and then fails its own verification.
- `HttpRetry`: a reused connection that breaks does not show that nothing was processed. An exception
  that `request` does not catch leaves the connection open, with unread bytes that the next call takes
  for its own answer; so does a body without any framing.
- `ChunkedBody`: the bytes that should be the CRLF after a chunk are skipped unread.
- `LoadMetrics`: with a clock that goes back the window can hold records older than 30 seconds or miss
  recent ones; the exact condition is on the readings alone. `LoadVerdict`: the percentile is nearest-rank
  exactly when 1 <= ceil(f*n) <= n.
- `LinkedSafety`: a forbidden module that is linked as the replacement of another one passes. Under an
  accepted policy and PASS a built-in rule holds for everything linked if and only if the replacement lines
  and the main module of the evidence meet it.
- `SemVer`: empty build identifiers are read. A text is a version of Semantic Versioning 2.0.0 if and only
  if it is read and its build part has no empty identifier.
- `AiGate`: the gate counts any release; the count stays between 0 and the cap for clients that release
  what they were granted.
- `Enrollment`: a refused enrollment can become accepted by appending, exactly while the journal is
  shorter than its anchor and some text of the missing length completes it; no text does once a line in
  front of the anchor is broken.
- `Certificate`: only endpoints present in the first sample are judged, and 0.9989995 passes for 0.999.
- `VaultProvision`: the undo of provisioning misses an image whose check fails right after allocation,
  the header directory always stays, and a write that fails on a created file leaves it: the receipt,
  after which no later run can succeed, or the mark of a consumed plan, which refuses every later run.

`dafny verify dfyconfig.toml` checks the whole project.

## Model

| member | source | states |
|---|---|---|
| `CanonicalJson.LoadsUndoesPrint` | scripts/security/fr06_execution_guard.py:63-71 | Reading the canonical JSON text of a value gives back exactly that value |
| `CanonicalJson.PrintOneLine` | scripts/security/fr06_execution_guard.py:63-71 | Canonical JSON text holds no CR or LF, so a record is one journal line |
| `GuardJournal.ReadRecords` | scripts/security/fr06_execution_guard.py:303-356 | The line loop with its previous digest, open intent and used identities accepts exactly the texts the recursive reader accepts and leaves the same records; a record whose time is no calendar date is refused |
| `GuardJournalFacts.DecodeUndoesLine` | scripts/security/fr06_execution_guard.py:314-356 | Parsing a written record line gives back the record |
| `GuardJournalFacts.BodyTextInjective` | scripts/security/fr06_execution_guard.py:321-323 | Two record bodies with the same digested text are the same body |
| `GuardJournalFacts.ResultsAnswerIntents` | scripts/security/fr06_execution_guard.py:335-353 | In an accepted journal intents and results alternate and each result answers the intent right before it, by the same run |
| `GuardJournalFacts.RequestsAreDistinct` | scripts/security/fr06_execution_guard.py:338-343 | No request identity occurs twice in an accepted journal |
| `GuardJournalFacts.SameLastDigest` | scripts/security/fr06_execution_guard.py:310-356 | Two accepted journals with the same last digest are equal or hold two different records with one digest |
| `GuardJournalFacts.LastDigestDeterminesJournal` | scripts/security/fr06_execution_guard.py:321-323 | The last digest pins the whole journal, or two different texts with one SHA-256 are exhibited |
| `GuardJournalFacts.ReadWhole` | scripts/security/fr06_execution_guard.py:362-387 | A journal accepted after one more complete record reads as the old records and that last one |
| `GuardJournalFacts.TornAppend` | scripts/security/fr06_execution_guard.py:303-387 | A crash at any byte of an append leaves a journal that reads as the old records, as the old ones and the whole new one, or is refused |
| `GuardJournalFacts.RecordsOfPrefix` | scripts/security/fr06_execution_guard.py:303-356 | A journal that extends another accepted journal starts with its records |
| `GuardClaims.ValidMeansInOrder` | scripts/security/fr06_execution_guard.py:84-114 | A call is accepted exactly when the source commit is the main one (the local main of a sync binding), the tree is clean, maintenance is closed, the generation is at least 8 and every identity has its form; a sync binding goes only with the fast-forward to its own main |
| `GuardClaims.JournalIff` | scripts/security/fr06_execution_guard.py:303-356 | A list of records is a journal if and only if every record is numbered, chained to the one before, digested, dated and either a new intent in order after no open one or the result of the intent right before it, field by field |
| `GuardClaims.RecordsAreInOrder` | scripts/security/fr06_execution_guard.py:303-356 | So is every record of every text that is read, and the text is at most 2 MiB of whole lines |
| `GuardClaims.PrintedIsRead` | scripts/security/fr06_execution_guard.py:303-387 | Such a list of records within the bounds is printed as a text that is read as exactly this list |
| `GuardClaims.InvokedIsInOrder` | scripts/security/fr06_execution_guard.py:389-420 | Over every run no effect is invoked on a dirty or moved source tree, under open maintenance, for a generation below 8, or with a sync binding for anything but the fast-forward to its main commit |
| `GuardRuns.Preserved` | scripts/security/fr06_execution_guard.py:263-287 | Every step of every process, including death and power loss, keeps the invariant of the protocol |
| `GuardRuns.InvocationIsPrepared` | scripts/security/fr06_execution_guard.py:398-415 | In every interleaving each invocation is immediately preceded by its own first observation, durable intent and second observation, both equal to what the caller expected, in the same lock tenure |
| `GuardRuns.OneHolder` | scripts/security/fr06_execution_guard.py:263-287 | At most one instance holds the guard, and every event belongs to the current holder |
| `GuardRuns.EarlierEffectsAreAnswered` | scripts/security/fr06_execution_guard.py:389-420 | No replay: when an effect is invoked, the journal already answers every earlier effect right after its intent, under a different request identity |
| `GuardRuns.AbandonedIntentBlocksForever` | scripts/security/fr06_execution_guard.py:403-404 | Once an instance stops with a durable intent and no complete result, no effect is ever invoked again by anyone |
| `GuardRuns.BlockedForever` | scripts/security/fr06_execution_guard.py:358-404 | From a state in which every surviving journal is refused or has an open intent, no continuation invokes anything |
| `GuardRuns.UnflushedIntentMayVanish` | scripts/security/fr06_execution_guard.py:374-387 | The flush is needed: a power loss that takes an unflushed intent leaves a journal that admits new work |
| `GuardProgress.UndisturbedPerform` | scripts/security/fr06_execution_guard.py:389-420 | From any state in which an instance may begin with an unused identity and room for both records, it alone can finish: exactly intent and result are appended and flushed, the callback runs once in between, and no intent stays open |
| `GuardProgress.FirstPerform` | scripts/security/fr06_execution_guard.py:263-420 | On an empty directory any instance can enter and carry any valid call through whose two records fit |
| `GuardProgress.ReadyPerform` | scripts/security/fr06_execution_guard.py:358-420 | From any state in which an instance is idle under a journal without an open intent, with an unused identity, 16384 free bytes and a generation of at most a hundred digits, it alone can carry any valid call through |
| `GuardProgress.SomeRunInvokes` | scripts/security/fr06_execution_guard.py:263-420 | A run that invokes an effect exists |
| `RecordSize.RecordFits` | scripts/security/fr06_execution_guard.py:370-374 | Every record the guard can want to write, with numbers of at most a hundred digits, is shorter than the limit of one record |
| `ExecutionGuard.Guard.Enter` | scripts/security/fr06_execution_guard.py:263-287 | Entering succeeds exactly for an unused instance, a free lock and an accepted journal, and is an Enter step of the protocol; a refusal, also of an instance that is inside, leaves lock and journal alone |
| `ExecutionGuard.Guard.Close` | scripts/security/fr06_execution_guard.py:422-434 | Leaving frees the lock and changes no record |
| `ExecutionGuard.Guard.WriteRecord` | scripts/security/fr06_execution_guard.py:370-387 | The write loop leaves old text plus a prefix of the record; success means the whole record, flushed and read back |
| `ExecutionGuard.Guard.AppendIntent` | scripts/security/fr06_execution_guard.py:405-410 | The first observation and the durable intent, as steps of the protocol |
| `ExecutionGuard.Guard.AppendResult` | scripts/security/fr06_execution_guard.py:416-420 | The result record of the same run, as steps of the protocol |
| `ExecutionGuard.Guard.RunEffect` | scripts/security/fr06_execution_guard.py:410-420 | After the durable intent: nothing is invoked unless the second observation equals `expected`, and success leaves exactly the result behind it, flushed |
| `ExecutionGuard.Guard.Perform` | scripts/security/fr06_execution_guard.py:389-420 | Each call runs a prefix of observe, durable intent, observe, invoke, in that order; it invokes only after two observations equal to `expected`; a request out of order in any field, an open intent and a differing first observation change nothing; success leaves exactly intent and result, with what they say, flushed; and a call in order, with equal observations and room, succeeds whenever the device takes something of every write |
| `ProjectHub.ValidatePlan` | scripts/project_hub.py:27-53 | Accepted exactly when batch ids are distinct, every dependency stands earlier in the list, all 62 capabilities are deferred with a reason or owned by known batches, every audit finding is owned, four decisions are deferred and the capacity profile is not weakened |
| `ProjectHub.ReplayAll` | scripts/project_hub.py:199-207 | The loop over the events with its seen set computes the replay of the journal or refuses it |
| `ProjectHub.ValidateSamples` | scripts/project_hub.py:89-131 | Accepted exactly when no sample earns credit in two events unless exactly those two are acknowledged and acknowledgements agree |
| `ProjectHub.CollectExceptions` | scripts/project_hub.py:89-114 | Collects the acknowledgement of each sample, refusing malformed or conflicting ones |
| `ProjectHub.CurrentState` | scripts/project_hub.py:199-220 | Returns the replayed states exactly for accepted journals over a plan with FR-25, and raises otherwise |
| `ProjectHub.Journal.Record` | scripts/project_hub.py:279-301 | Appends a new receipt exactly when the longer journal is still accepted and has a current state, recognises an identical receipt whatever its time, and refuses a conflicting one |
| `ProjectHub.BuiltIsAccepted` | scripts/project_hub.py:279-301 | Every journal built by record replays without error |
| `ProjectHub.BuiltOnlyGrows` | scripts/project_hub.py:296-301 | Such a journal only grows by appending |
| `ProjectHub.RecordingTwiceChangesNothing` | scripts/project_hub.py:287-293 | Recording an event again, at any time, changes nothing |
| `ProjectHub.TimeIsIgnored` | scripts/project_hub.py:287-297 | Acceptance does not depend on the recorded time of the last receipt |
| `ProjectHub.CompleteMeansCompleted` | scripts/project_hub.py:143-169 | A complete batch has a completing receipt with all required evidence, and it is the last receipt of that batch |
| `ProjectHub.PrerequisiteCompletedBefore` | scripts/project_hub.py:158-159 | A batch is completed only after each prerequisite was completed |
| `ProjectHub.ReleaseRestsOnCompletedPrerequisites` | scripts/project_hub.py:149-169 | RELEASED_VERIFIED implies that every transitive prerequisite of FR-25 has a completing receipt earlier in the journal |
| `ProjectClaims.PlanIff` | scripts/project_hub.py:27-53 | Exactly which plans are valid, with the counts and the least profile written out |
| `ProjectClaims.ReplayIff` | scripts/project_hub.py:143-169 | A journal replays if and only if every receipt has an identity of its own and says what its status demands: a completion an exact commit, passed checks, verification, evidence, a verified deployment where the batch is deployed, and prerequisites that are complete in the receipts before it |
| `ProjectClaims.StatesAre` | scripts/project_hub.py:143-169 | A batch is complete in the replayed states if and only if its latest receipt completes it |
| `ProjectClaims.SamplesIff` | scripts/project_hub.py:89-131 | Samples are kept apart if and only if any two events that earn credit for one sample are named, with nobody else, by an acknowledgement of it, and acknowledgements of one sample name the same two |
| `ProjectClaims.AcceptedIff` | scripts/project_hub.py:89-169 | Exactly which journals are accepted, in terms of the fields of their receipts |
| `ProjectClaims.CompletedRestsOnReceipts` | scripts/project_hub.py:149-169 | Every completing receipt of every journal that replays is a full one, and each prerequisite is complete by the receipts before it |
| `ProjectClaims.ShownCapacityIsEnough` | scripts/project_hub.py:36-53 | Under a valid plan a completed FR-09 has shown at least 5000 users with 3 projects and 3 conversations each |
| `ProjectClaims.ReleaseRestsOnReceipts` | scripts/project_hub.py:149-169 | RELEASED_VERIFIED: FR-25 and, earlier in the journal, every transitive prerequisite has a receipt with commit, checks, verification, evidence and, where it is deployed, a verified deployment; FR-09 with its five minima and six maxima, one by one |
| `ProjectHub.ReopeningKeepsTheRelease` | scripts/project_hub.py:149-169 | States may regress: any prerequisite can be reopened after the release and the release stands |
| `NextWork.Search.Walk` | scripts/project_hub.py:180-190 | The depth-first search below one batch returns the ready batch that the path of first open prerequisites leads to, or leaves everything visited settled and nothing incomplete below |
| `NextWork.NextProductWorkBatch` | scripts/project_hub.py:172-196 | With the deferral active the result is None exactly when every batch reachable without entering deferred FR-06 is complete; otherwise it is the end of the path from the first of FR-08, FR-09, FR-25 with anything incomplete below it, on which every prerequisite listed before the one taken has nothing incomplete below; without the deferral, the first incomplete batch |
| `NextWork.ForemostIsUnique` | scripts/project_hub.py:180-196 | There is only one such batch |
| `NextWork.FirstIncompleteIsUnblocked` | scripts/project_hub.py:172-176 | Without the deferral the chosen batch has all prerequisites complete |
| `NextWork.ReadyBatchMayWaitForColdHost` | scripts/project_hub.py:158-159 | With the deferral the chosen batch can be completed next exactly when it does not depend on an incomplete FR-06 |
| `Installation.Volume.Record` | scripts/security/fr06_executor_installation.py:77-94 | One journal file is created, written, sealed and flushed, or the process dies leaving a torn last file |
| `Installation.Volume.Publish` | scripts/security/fr06_executor_installation.py:97-108 | The atomic rename with its flushes, safe at every interruption; a root that somebody else put at the target path is not replaced |
| `Installation.Volume.InstallUnenrolled` | scripts/security/fr06_executor_installation.py:170-305 | Every effect keeps the safety of the volume; success publishes both roots exactly as packaged, with an intent record of the operation and a final record that describes exactly the two roots; whatever the volume holds, a refused authority, a non-empty journal or a target path that is taken, by whomever, changes nothing; roots of others are never touched; an admitted installation that nothing interrupts succeeds |
| `Installation.Volume.PublishStage` | scripts/security/fr06_executor_installation.py:263-291 | One root is renamed into place between its durable intent and its durable observation |
| `Installation.Volume.PowerLoss` | scripts/security/fr06_executor_installation.py:77-108 | Power loss at any point keeps safety, every flushed file and every flushed rename |
| `Installation.JournalTellsTheTruth` | scripts/security/fr06_executor_installation.py:263-304 | A final record, even torn, means both roots stand as recorded; a sealed one describes exactly the two standing roots and names the operation of the intent; the launch root stands only after the guard root was observed; an empty journal means no target |
| `RuntimeWatch.Reconcile` | scripts/operations/docker-runtime-watch.py:164-267 | The loop over all keys plans exactly the new row and the numbered events of each component |
| `RuntimeWatch.Poll` | scripts/operations/docker-runtime-watch.py:270-304 | What is written is the planned row, or the old one where a notification failed; a poll that raises after some of its notifications writes nothing, and what it had delivered stays delivered |
| `RuntimeWatch.PollIsTurn` | scripts/operations/docker-runtime-watch.py:270-304 | A poll, raised or not, leaves each component with the row of its own turn and has sent exactly what that turn sends |
| `RuntimeWatch.AlertedIffBadTwice` | scripts/operations/docker-runtime-watch.py:188-265 | Over every run with delivery failures a kept row is alerted exactly when it is expected and was bad at least twice in a row |
| `RuntimeWatch.RowsNeverVanish` | scripts/operations/docker-runtime-watch.py:173-186 | A row never disappears, and every event has a prior row to fall back to |
| `RuntimeWatch.CommittedNumbers` | scripts/operations/docker-runtime-watch.py:188-257 | The transition numbers of kept events are exactly 1, 2, 3, ... |
| `RuntimeWatch.RowSummarisesTrace` | scripts/operations/docker-runtime-watch.py:188-265 | The small row is determined by the whole trace of kept observations: its streak is the length of the bad run at the end, counted while expected |
| `RuntimeWatch.AlertsAlternate` | scripts/operations/docker-runtime-watch.py:193-257 | Bad alerts and recoveries strictly take turns, starting with a bad alert |
| `RuntimeWatch.DeliveredIsCommittedIffNeverTorn` | scripts/operations/docker-runtime-watch.py:270-304 | The notifier sees exactly the kept events if and only if no turn that sent one was undone, by a lost event, a poll that raised or a failed write; they are then numbered 1, 2, 3, ... |
| `RuntimeWatch.NumbersRunIff` | scripts/operations/docker-runtime-watch.py:270-304 | The numbers the notifier sees are 1, 2, 3, ... if and only if every turn sent nothing or a stretch of its plan that starts right behind what undone turns had already sent |
| `RuntimeWatch.TornMayStillRun` | scripts/operations/docker-runtime-watch.py:283-304 | A run with an undone delivery whose delivered numbers are nevertheless 1, 2, 3, ... |
| `RuntimeWatch.NumbersMayRepeatAtTheNotifier` | scripts/operations/docker-runtime-watch.py:285-304 | A run in which one number reaches the notifier twice for different events |
| `WatchClaims.EventsInTrace` | scripts/operations/docker-runtime-watch.py:193-265 | Over every run a restart is planned exactly when the same container of an expected component shows a higher count than when it was last seen, in good health or bad; a bad alert exactly with the second bad observation in a row after a healthy one; a recovery exactly with the first healthy one after that |
| `WatchClaims.SeenIsLast` | scripts/operations/docker-runtime-watch.py:188-265 | What a row remembers of its container is the last kept observation that showed one |
| `WatchClaims.FirstSightIsQuiet` | scripts/operations/docker-runtime-watch.py:173-186 | A component that was never seen causes no event |
| `CapacityGuard.ReconcileCapacity` | scripts/operations/host-capacity-guard.py:155-220 | The loop over the metrics plans exactly the next row and event of each |
| `CapacityGuard.Poll` | scripts/operations/host-capacity-guard.py:285-313 | A failed notification gives back the old row of that metric; a poll that raises writes nothing, and what it had delivered stays delivered |
| `CapacityGuard.RowInvariant` | scripts/operations/host-capacity-guard.py:164-218 | Over every run with rollbacks critical_streak <= warning_streak, two criticals mean alerted critical, three healthy mean alerted healthy, and three warnings without a critical mean not alerted healthy |
| `CapacityGuard.NoEventWithoutRow` | scripts/operations/host-capacity-guard.py:164-208 | No event occurs without a prior row |
| `CapacityGuard.CommittedNumbers` | scripts/operations/host-capacity-guard.py:198-208 | Kept events are numbered 1, 2, 3, ... |
| `CapacityGuard.DeliveredNumbersIff` | scripts/operations/host-capacity-guard.py:302-313 | The notifier sees exactly the kept events if and only if no poll raised after the event was sent, and the numbers 1, 2, 3, ... if and only if nothing was sent after such a poll |
| `CapacityGuard.RowSummarisesTrace` | scripts/operations/host-capacity-guard.py:164-218 | The row is a function of the trace of kept levels: its streaks are the trailing runs and its alert is decided by which spell was raised last and not cleared |
| `CapacityGuard.EventsFormEpisodes` | scripts/operations/host-capacity-guard.py:171-208 | Kept events form ((warning critical? / critical) recovered)*, possibly cut short |
| `CapacityClaims.AlertInValues` | scripts/operations/host-capacity-guard.py:146-218 | After any run the alert is critical from two values in a row at the critical threshold, otherwise a warning from three in a row at the warning threshold, until three in a row are below it; the thresholds of each metric are written out |
| `CapacityClaims.EventInValues` | scripts/operations/host-capacity-guard.py:146-208 | Exactly when a poll plans a critical, a warning or a recovered event, in the measured values |
| `CapacityClaims.EventCarries` | scripts/operations/host-capacity-guard.py:164-208 | An event carries the measured value and the threshold that it is about |
| `ExternalWatch.Evaluate` | scripts/monitoring/fr22_external_watch.py:170-323 | Refused exactly for a negative or decreasing time; otherwise the new state and the emitted events, in order |
| `ExternalWatch.CollectConditions` | scripts/monitoring/fr22_external_watch.py:192-216 | The conditions that hold for the observation |
| `ExternalWatch.Bookkeeping` | scripts/monitoring/fr22_external_watch.py:186-216 | First time, last time, last success and active conditions are those of the whole run |
| `ExternalWatch.AcceptedIffNeverRefused` | scripts/monitoring/fr22_external_watch.py:181-184 | A run is refused nowhere exactly when its times are non-negative and do not decrease |
| `ExternalWatch.OutageIsTheUnhealthyRun` | scripts/monitoring/fr22_external_watch.py:218-228 | An outage is open exactly while the latest observation is not fully healthy, and starts at the first observation of that maximal run |
| `ExternalWatch.RecoveryEndsARun` | scripts/monitoring/fr22_external_watch.py:288-302 | Exactly one recovery per finished run, with its true duration |
| `ExternalWatch.EachIntervalOpensOnce` | scripts/monitoring/fr22_external_watch.py:218-286 | Each maximal interval of a condition opens with exactly one event |
| `ExternalWatch.OutageIsRightIffBoundIsNotNegative` | scripts/monitoring/fr22_external_watch.py:205-228 | The outage is open exactly in the unhealthy run and starts with it, in every accepted run, if and only if the staleness bound is not negative |
| `ExternalClaims.ConditionsInRun` | scripts/monitoring/fr22_external_watch.py:192-216 | After any run: unreachable exactly without an answer, degraded exactly with an unhealthy one, stale exactly when the last healthy observation is more than the bound ago, and the two certificate conditions by the seconds remaining, the critical one first |
| `ExternalClaims.TlsRecoveredInRun` | scripts/monitoring/fr22_external_watch.py:304-318 | A recovered certificate is announced exactly when it was near its end at the last observation and is not now |
| `ExternalClaims.RecoveryClears` | scripts/monitoring/fr22_external_watch.py:288-302 | A recovery names exactly the outage conditions that were active |
| `ExternalClaims.EventsInOrder` | scripts/monitoring/fr22_external_watch.py:218-302 | Openings come first, in the order of their names, then recoveries |
| `WireCodec.EncodeWsFrame` | scripts/capacity/p6_http.py:275-291 | The head built in place and the masked payload are the frame with the shortest length form; a mask of another size or an impossible length is refused |
| `WireCodec.XorIsBitwise` | scripts/capacity/p6_http.py:290 | Each bit of a masked byte is set exactly when the two bits differ |
| `WireCodec.RfcLengths` | scripts/capacity/p6_http.py:282-289 | The two longer length forms agree with the examples of section 5.7 of RFC 6455 |
| `WireCodec.Reader.ReadWsFrame` | scripts/capacity/p6_http.py:294-308 | Reading step by step from the stream returns what the frame holds and leaves the rest |
| `WireCodec.FrameRoundTrip` | scripts/capacity/p6_http.py:294-308 | Every frame of section 5.2 of RFC 6455, masked or not and in any length form, is read back up to the bound and refused beyond it |
| `WireCodec.DecodeUndoesEncode` | scripts/capacity/p6_http.py:275-308 | read_ws_frame undoes encode_ws_frame for every opcode, mask key and payload within the bound |
| `WireCodec.StreamRoundTrip` | scripts/capacity/p6_http.py:275-308 | A concatenation of frames decodes to the same list with nothing left over |
| `WireCodec.CutFrameIsIncomplete` | scripts/capacity/p6_http.py:294-308 | A frame cut anywhere is incomplete, never a shorter frame |
| `ChunkedBody.ReadChunkedBody` | scripts/capacity/p6_http.py:112-130 | The loop over `total` and `chunks` reads exactly the chunked body, or fails as it does, and leaves on the stream exactly what the model of the reader says, also after each failure |
| `ChunkedBody.LeftIsRest` | scripts/capacity/p6_http.py:112-130 | A body that was read leaves exactly what follows it |
| `ChunkedBody.SizeRead` | scripts/capacity/p6_http.py:116-120 | The size text of section 7.1 of RFC 9112 is read whatever its case, leading zeros, white space and extension |
| `ChunkClaims.SizeIff` | scripts/capacity/p6_http.py:116-120 | Exactly which size lines are read, and as which number: up to a semicolon and without the space around it, a sign, a prefix 0x that one underscore may follow, and digits of either case with single underscores between them |
| `ChunkedBody.ChunkedRoundTrip` | scripts/capacity/p6_http.py:112-130 | Every framing by section 7.1 of RFC 9112, with extensions and trailers, is undone within the bound, and refused as too large beyond it |
| `ChunkedBody.ChunkRead` | scripts/capacity/p6_http.py:126-130 | The two bytes after a chunk are not looked at: any two are accepted where the standard has CRLF |
| `HttpRetry.Connection.Send` | scripts/capacity/p6_http.py:187-222 | The retry loop makes exactly the exchanges of the pure account; afterwards the connection is open exactly when the last exchange ended in a keep-alive answer or in an exception that `request` does not catch, and then holds what that exchange left unread |
| `HttpRetry.Connection.Converse` | scripts/capacity/p6_http.py:224-248 | One exchange over the bytes of the connection: refused headers write nothing, and only an answer asking for it closes the connection here |
| `HttpRetry.ReadBodyOf` | scripts/capacity/p6_http.py:112-143 | The body by chunks, by length or by one read, with its errors; a body cut short, a line beyond the limit and a chunk size below zero escape, leaving the rest unread |
| `HttpRetry.ClosedInHead` | scripts/capacity/p6_http.py:81-92 | A stream that ends before the blank line is a closed connection, or too large a head from 65540 bytes on |
| `HttpRetry.FramedAnswerLeavesTheRest` | scripts/capacity/p6_http.py:81-143 | A framed answer, chunked or by length, is returned with its body, and exactly what follows it is left for the next request |
| `HttpRetry.CutBodyIsNoticedLater` | scripts/capacity/p6_http.py:137-222 | After a body cut short the connection stays open with nothing on it; the next call finds that out and goes out again on a new connection |
| `HttpRetry.NegativeSizeLeavesAnAnswer` | scripts/capacity/p6_http.py:118-222 | After a chunk size below zero the bytes behind it stay unread, and the next call takes them for its own answer, whether or not the server acted on it |
| `HttpRetry.MinusOneMisplacesAnAnswer` | scripts/capacity/p6_http.py:118-222 | The instance: behind the chunk size -1 a whole framed answer is returned by the next call as its own, also when the server did nothing on that call |
| `HttpRetry.UnframedBodyIsSplit` | scripts/capacity/p6_http.py:140-143 | A body without chunks or length is what one read returns; on a kept connection the rest of it begins the next answer |
| `HttpRetry.ActedTwiceMeans` | scripts/capacity/p6_http.py:207-222 | At most two exchanges, one on a fresh connection; the server acts twice exactly when it had acted before the reused connection broke and acts again, although the comment there rules that out |
| `SemVer.ParseUndoesText` | scripts/security/final_audit_reachability.py:123-147 | Every version of Semantic Versioning 2.0.0, with or without v and with any build metadata the pattern admits, is read with exactly its parts |
| `SemVer.TextUndoesParse` | scripts/security/final_audit_reachability.py:123-147 | Whatever is read is the text of exactly one such version, with at most a v in front and build metadata the pattern admits behind |
| `SemVer.StandardIff` | scripts/security/final_audit_reachability.py:123-147 | A text is one of Semantic Versioning 2.0.0, section 10 included, if and only if it is read and its build part has no empty identifier |
| `SemVer.EmptyBuildIsRead` | scripts/security/final_audit_reachability.py:123-147 | Every version followed by "+." is read although section 10 forbids it |
| `SemVer.CompareIsPrecedence` | scripts/security/final_audit_reachability.py:141-151 | The tuple order of the key is the precedence of section 11, total, and equal only for equal versions |
| `SemVer.Transitive` | scripts/security/final_audit_reachability.py:150-151 | The order is transitive |
| `SemVer.AtLeastIsPrecedence` | scripts/security/final_audit_reachability.py:150-151 | version_at_least holds exactly when the observed version does not precede the minimum |
| `SemVer.FloorsChain` | scripts/security/final_audit_reachability.py:339-344 | What meets a floor meets every lower floor |
| `LinkEvidence.ParseGoVersionM` | scripts/security/final_audit_reachability.py:161-254 | Accepted exactly for one header, one path line, a body of distinct dependencies with replacements right after them, build lines last and enough modules; the result has exactly the dep lines |
| `LinkEvidence.RecordsUnique` | scripts/security/final_audit_reachability.py:227-245 | The lines determine the module map |
| `Reachability.LoadPolicy` | scripts/security/final_audit_reachability.py:262-345 | Accepted exactly when the pinned tools, their packages, counts, rule shapes and all built-in rules are kept or strengthened |
| `Reachability.EvaluateRule` | scripts/security/final_audit_reachability.py:369-449 | A rule is refused, passes or fails exactly by the modules it targets |
| `Reachability.EvaluateTool` | scripts/security/final_audit_reachability.py:355-459 | PASS exactly when the evidence is complete, nothing is refused and every rule holds |
| `Reachability.Evaluate` | scripts/security/final_audit_reachability.py:462-483 | PASS exactly when the evidence set matches and every tool passes |
| `Reachability.PassIsSafe` | scripts/security/final_audit_reachability.py:327-483 | An accepted policy and PASS imply for every pinned tool and built-in rule that no dep line names a module an absence rule targets, and that one a floor rule targets stands there without a replacement at the built-in floor or above |
| `ReachabilityClaims.PassKeepsAdvisories` | scripts/security/final_audit_reachability.py:38-483 | Under any accepted policy and PASS, on the lines of the evidence: no dep line of Trivy or Grype names github.com/docker/docker; every dep line of the Go telemetry family, whatever follows its prefix, is unreplaced and at least v1.45.0; and so are containerd at v2.3.6 (Trivy, Grype, Syft) and rardecode at v2.2.0 and xz at v0.5.15 (Gitleaks) |
| `ReachabilityClaims.BuiltInPassIff` | scripts/security/final_audit_reachability.py:355-483 | For complete evidence the built-in policy passes if and only if these advisories are kept |
| `ReachabilityClaims.AcceptedPolicyMeans` | scripts/security/final_audit_reachability.py:262-345 | What an accepted policy says, field by field |
| `LinkedSafety.PassIsLinkedSafeIff` | scripts/security/final_audit_reachability.py:227-483 | Under an accepted policy and PASS a built-in rule holds for everything the binary is linked from, replacements and the main module included, if and only if it holds for the replacement targets and the main module, which the evaluation does not look at |
| `LinkedSafety.ReplacementEscapes` | scripts/security/final_audit_reachability.py:227-483 | Evidence of all tools that passes under the built-in policy although github.com/docker/docker, which must be absent, is linked as the replacement of another module |
| `Reachability.BuiltInIsAccepted` | scripts/security/final_audit_reachability.py:262-345 | The policy of the built-in rules alone is accepted |
| `AiGate.Gate.TryAcquire` | scripts/capacity/p6_mixed_load.py:448-459 | Grants exactly when a token has accrued and the cap is not reached, and records it |
| `AiGate.Gate.Release` | scripts/capacity/p6_mixed_load.py:461-462 | One fewer in flight |
| `AiGate.RateHolds` | scripts/capacity/p6_mixed_load.py:448-459 | In any interval of any run with a clock that does not go back, at most capacity + rate * length grants; none at all for a rate or cap that is not positive |
| `AiGate.RateIsTight` | scripts/capacity/p6_mixed_load.py:448-459 | The bound is met |
| `AiGate.CapHolds` | scripts/capacity/p6_mixed_load.py:454-462 | After every run of calls, whoever makes them, in flight is grants minus releases and at most the cap |
| `AiGate.InflightHolds` | scripts/capacity/p6_mixed_load.py:573-586 | Over every interleaving of virtual users that each release once what they were granted, in flight is the number of users inside their call, so between 0 and the cap |
| `AiGate.StrayReleaseIsCounted` | scripts/capacity/p6_mixed_load.py:461-462 | The gate alone does not keep the count from falling below zero |
| `AiGate.PeakIsMaximum` | scripts/capacity/p6_mixed_load.py:458 | ai_inflight_max is the maximum over the whole run, reached |
| `LoadMetrics.Metrics.Record` | scripts/capacity/p6_mixed_load.py:328-349 | Every field stays a function of everything that happened: kinds, statuses and latencies of the routes, the same inside the steady window, buckets, window, edge blocks and the trailing transport run |
| `LoadMetrics.Metrics.BeginSteady` | scripts/capacity/p6_mixed_load.py:693-694 | The steady window begins |
| `LoadMetrics.Metrics.SampleActive` | scripts/capacity/p6_mixed_load.py:698-702 | The least number of signed-in users sampled so far |
| `LoadMetrics.Metrics.EndSteady` | scripts/capacity/p6_mixed_load.py:706-710 | The steady window ends |
| `LoadMetrics.WindowIsRightIff` | scripts/capacity/p6_mixed_load.py:347-349 | The window is the records of the last 30 seconds after every record if and only if no record is too old while an earlier one is not yet, and none becomes recent again |
| `LoadMetrics.WindowIsRecent` | scripts/capacity/p6_mixed_load.py:347-349 | With a clock that does not go back the window is exactly the records of the last 30 seconds |
| `LoadMetrics.ClockGoingBackKeepsOldRows` | scripts/capacity/p6_mixed_load.py:347-349 | After the clock went back an old row can stay behind a newer one |
| `LoadVerdict.BucketsCountEverything` | scripts/capacity/p6_mixed_load.py:340-343 | Bucket totals sum to the number of records |
| `LoadVerdict.CountTotals` | scripts/capacity/p6_mixed_load.py:391-395 | The totals over the routes count every record of each kind |
| `LoadVerdict.PercentileMeans` | scripts/capacity/p6_mixed_load.py:256-261 | The chosen sample has at least ceil(f*n) samples at or below it and fewer strictly below, exactly when 1 <= ceil(f*n) <= n |
| `LoadVerdict.FractionInRange` | scripts/capacity/p6_mixed_load.py:256-261 | For a fraction in (0, 1] that is always so |
| `LoadVerdict.StormBuckets` | scripts/capacity/p6_mixed_load.py:352-357 | The reported buckets are exactly the storms |
| `LoadVerdict.StormsInHistory` | scripts/capacity/p6_mixed_load.py:340-357 | A storm is reported exactly when some ten-second period of the records has at least 20 server errors and one in a hundred |
| `LoadVerdict.CollectSteady` | scripts/capacity/p6_mixed_load.py:397-400 | The latencies gathered route by route are, in some order, those recorded inside the steady window outside the AI |
| `LoadVerdict.PercentileIgnoresOrder` | scripts/capacity/p6_mixed_load.py:256-261 | The percentile does not depend on the order of the samples |
| `LoadVerdict.EvaluateVerdict` | scripts/capacity/p6_mixed_load.py:390-431 | PASS exactly when, over everything that happened, fewer than one in a hundred requests failed, no storm occurred, the steady window was fast, as long as planned and full at every sample, and after no call on the gate more AI calls were under way than configured |
| `LoadVerdict.CapIsNeverExceededIff` | scripts/capacity/p6_mixed_load.py:417-418 | Over every run of the gate the criterion on AI calls holds if and only if the configured cap is not negative |
| `LoadVerdict.FastEnoughMeans` | scripts/capacity/p6_mixed_load.py:401-410 | The steady window is fast enough if and only if it has samples and at least ceil(0.95 n) of them are below 499.9995 ms |
| `LoadClaims.PassesIff` | scripts/capacity/p6_mixed_load.py:390-431 | PASS by the moments of the log alone: at least one request and fewer than 1 in 100 failed; no ten seconds with 20 server errors that are 1 in 100; at least 95 in 100 of the timed moments of the steady window, outside the AI, below 499.9995 ms; the window as long as planned; everybody signed in at every sample; a cap that is not negative |
| `AssetManifest.WalkDirectory` | scripts/security/fr06b_asset_copy_manifest.py:62-134 | The walk succeeds exactly for steady trees of directories and single-link regular files, and appends their records in order |
| `AssetManifest.SameEntriesSameTree` | scripts/security/fr06b_asset_copy_manifest.py:62-134 | Entries are equal exactly for equal names, structure, permission bits, owners, sizes and digests |
| `AssetClaims.ManifestIs` | scripts/security/fr06b_asset_copy_manifest.py:62-134 | The manifest of a tree holds, for exactly what stands in it, a record with its path from the top, its mode in four octal digits, its owner and, for a file, size and digest |
| `AssetManifest.ModeTextInjective` | scripts/security/fr06b_asset_copy_manifest.py:35-36 | The octal mode text determines the twelve permission bits |
| `AssetManifest.SiblingNotWithin` | scripts/security/fr06b_asset_copy_manifest.py:80 | Paths of different siblings never lie below each other |
| `AssetManifest.SummaryIsTree` | scripts/security/fr06b_asset_copy_manifest.py:159-164 | The summary counts and bytes are those of the tree |
| `PortalIngress.BuildPortalIngress` | scripts/phase29b/activate_portal_hostname.py:259-300 | Accepted exactly with services present, distinct hosts, one safe catch-all and the required rules; the result is the other rules in order, the portal rule and the catch-all |
| `PortalIngress.BuiltKeepsOrder` | scripts/phase29b/activate_portal_hostname.py:290-300 | All other rules keep their order, the portal comes next to last, the one catch-all last |
| `IngressClaims.HostIs` | scripts/phase29b/activate_portal_hostname.py:269 | A rule's name is its hostname without the blanks around it, in small letters |
| `IngressClaims.AcceptedIff` | scripts/phase29b/activate_portal_hostname.py:259-289 | Exactly which rule lists are accepted, with every name written out and on positions: each rule has a service, names differ, one rule has none and is the catch-all, and the two production names are served as required |
| `IngressClaims.BuiltIs` | scripts/phase29b/activate_portal_hostname.py:290-300 | The result is the rules that stay, at ascending positions of the list, then the portal's rule with the other fields of an older one, then the catch-all as it was |
| `PortalIngress.BuildingTwice` | scripts/phase29b/activate_portal_hostname.py:269-300 | Building again changes nothing if and only if every portal hostname was trimmed; otherwise the result is refused |
| `PortalIngress.UntrimmedIsAccepted` | scripts/phase29b/activate_portal_hostname.py:269-297 | Untrimmed portal hostnames are accepted, for every accepted configuration without a portal rule |
| `PortalIngress.SmallestIsAccepted` | scripts/phase29b/activate_portal_hostname.py:259-289 | The two required rules and the catch-all are an accepted configuration without a portal rule |
| `PortalActivation.Activate` | scripts/phase29b/activate_portal_hostname.py:330-455 | A check writes nothing; Active means the rewritten rules are stored and DNS is ready; a failed DNS step with successful rollback restores the tunnel; a failed verification leaves the rewritten rules; an active zone is not written to; without a failed request the run ends active exactly for trimmed portal hostnames |
| `ActivationClaims.StateIff` | scripts/phase29b/activate_portal_hostname.py:303-327 | The DNS state is missing exactly without a record for the portal, ready exactly when the only one is a proxied CNAME with a proper identifier that points to the tunnel, and to be updated exactly when it only does not point there; else it conflicts |
| `PortalActivation.AddedIsReady` | scripts/phase29b/activate_portal_hostname.py:395-409 | A created record makes the DNS state ready |
| `PortalActivation.ReplacedIsReady` | scripts/phase29b/activate_portal_hostname.py:410-415 | So does the replaced record when record identifiers are distinct |
| `Enrollment.EventRun` | scripts/security/fr06_execution_enrollment.py:126-166 | The run an event speaks of, or a refusal, as the loop over its references decides |
| `Enrollment.SetAside` | scripts/security/fr06_execution_enrollment.py:202-215 | The quarantined events are exactly the corrected ones, and only malformed ones can be corrected, once |
| `Enrollment.Account` | scripts/security/fr06_execution_enrollment.py:216-233 | Accepted exactly when every counted event is in order and every start of a run is followed by an end of it; the phases are those the events say |
| `Enrollment.ReadJournal` | scripts/security/fr06_execution_enrollment.py:115-123 | The line loop returns the events with distinct identities or refuses |
| `Enrollment.CheckHistory` | scripts/security/fr06_execution_enrollment.py:276-283 | The receipt map must name exactly the older runs, each with both phases |
| `Enrollment.VerifyBundle` | scripts/security/fr06_execution_enrollment.py:197-299 | Accepted exactly when the anchored prefix has the digest, its runs are accounted for, and routes and older runs are in order |
| `Enrollment.AdmittedRunsEnded` | scripts/security/fr06_execution_enrollment.py:216-283 | In an accepted prefix every run was ended after each start, and is a route's own or has its file pair |
| `EnrollmentClaims.LegacyReads` | scripts/security/fr06_execution_enrollment.py:126-166 | Every older event identity is read as its role, phase and run |
| `EnrollmentClaims.LegacyWritten` | scripts/security/fr06_execution_enrollment.py:126-166 | Nothing else is an older identity |
| `EnrollmentClaims.EndingDecides` | scripts/security/fr06_execution_enrollment.py:158-161 | An event without a phase field counts as the end of exactly the runs it cites as ended when its identity ends with -end or -terminal, and as a start with -start or -started |
| `EnrollmentClaims.FieldDecides` | scripts/security/fr06_execution_enrollment.py:148-161 | A phase field decides before the identity does |
| `EnrollmentClaims.AdmittedIff` | scripts/security/fr06_execution_enrollment.py:126-299 | Exactly which bundles are accepted, said on the text of identities and on positions in the journal: anchor, digest, corrections of never filled-in events, every counted event in order, every start followed by an end, one recent run of its own for each role bound by its two events, and a file pair with times in order for exactly the older runs |
| `EnrollmentClaims.StartIsFollowedByEnd` | scripts/security/fr06_execution_enrollment.py:216-233 | In an accepted prefix an event that by its identity started a run cites the start of a run whose end a later event cites |
| `Enrollment.AnchorDecides` | scripts/security/fr06_execution_enrollment.py:197-201 | Once the anchor lies inside the journal, appending changes no verdict |
| `Enrollment.AppendingKeepsVerdict` | scripts/security/fr06_execution_enrollment.py:197-201 | Appending keeps an accepted verdict |
| `Enrollment.VerdictIsFinalIff` | scripts/security/fr06_execution_enrollment.py:197-201 | No appending changes the verdict if and only if the journal has reached its anchor or no text of exactly the missing length completes it |
| `Enrollment.ReadableAgainIff` | scripts/security/fr06_execution_enrollment.py:115-123 | A journal of whole lines within the bound can be continued to one that is read if and only if no line fails to decode, has an empty identity or repeats an earlier one |
| `Enrollment.BrokenLineIsFinal` | scripts/security/fr06_execution_enrollment.py:197-204 | With such a broken line in front of the anchor every continuation is refused |
| `Enrollment.RefusedMayBecomeAccepted` | scripts/security/fr06_execution_enrollment.py:199-200 | Every prefix of an accepted journal shorter than the anchor is refused and grows into the accepted one |
| `Enrollment.AnchorPinsPrefix` | scripts/security/fr06_execution_enrollment.py:199-200 | Two journals accepted under one bundle agree on the prefix, or exhibit a digest collision |
| `Certificate.Certify` | scripts/ops/p6_72h_observer.py:226-309 | PASS exactly by span, gaps, first-row endpoints, origin errors, containers and backups of the sorted rows |
| `CertificateClaims.RowsAre` | scripts/ops/p6_72h_observer.py:229-230 | The rows are the samples of the run by epoch, those of one epoch in the order of the files |
| `CertificateClaims.PassIff` | scripts/ops/p6_72h_observer.py:231-289 | PASS by the numbers of the rows alone: the span, every gap, 9989995 in ten million answers of each endpoint of the first row, 99 in 100 rows with origin, inventory and backup, at most 1 in 100 origin errors, no unhealthy or killed container, those of the first inventory unchanged in the last, and every backup at most 26 hours old |
| `Certificate.PassCoversTheSpan` | scripts/ops/p6_72h_observer.py:235-241 | PASS covers the required hours with consecutive samples at most 2*interval+60 seconds apart |
| `Certificate.AvailableMeans` | scripts/ops/p6_72h_observer.py:243-248 | An endpoint passes exactly at a share of 0.9989995 or more, by the six-digit rounding |
| `Certificate.OnlyFirstRowEndpointsCount` | scripts/ops/p6_72h_observer.py:244-248 | Endpoints missing from the first row are never judged |
| `Certificate.OrderMakesNoDifference` | scripts/ops/p6_72h_observer.py:229-230 | The order of the sample files makes no difference when the run's epochs differ |
| `Certificate.OtherRunsMakeNoDifference` | scripts/ops/p6_72h_observer.py:229-230 | Samples of other runs make no difference |
| `VaultProvision.Host.Undo` | scripts/security/fr06b4_vault_provision.py:574-577 | The reverse undo removes the whole list exactly when every command works |
| `VaultProvision.Host.WriteExclusive` | scripts/security/fr06b4_vault_provision.py:144-151 | Refuses a file that is there; a failed write may leave the file it created |
| `VaultProvision.UnlockVaults` | scripts/security/fr06b4_vault_provision.py:505-589 | Success opens and mounts every vault; a host that is not closed is left alone; after a failure the host is as before exactly when every command did what it reported; a receipt stays exactly after success or a failed write that had created it |
| `VaultProvision.ApplyPlan` | scripts/security/fr06b4_vault_provision.py:592-713 | After a failure the host is fresh again exactly when every command did what it reported and the failure was not the check of an image just allocated; headers stay and block every later run; exactly which failures leave the receipt and the consumed mark; a consumed mark refuses every later run, and a receipt that is already there fails every run that gets to writing its own |
| `RestoreIsolation.ValidateComposeConfig` | scripts/recovery/p6_isolated_restore_drill.py:69-138 | Returns exactly the violations of the configuration |
| `RestoreIsolation.EmptyReportIff` | scripts/recovery/p6_isolated_restore_drill.py:69-138 | Nothing is reported exactly for configurations in which every network, volume, service and mount is harmless, field by field |
| `RestoreIsolation.NoWayOut` | scripts/recovery/p6_isolated_restore_drill.py:82-123 | With no problem reported no chain of services leads from the isolated network to a service that can reach or be reached from outside |

## Left out

- Sockets, TLS, subprocesses, Docker, Cloudflare, systemd and cryptsetup: each is a step that succeeds
  with a stated effect or fails, in some modules with an effect all the same.
- File descriptors, inodes, `/proc`, ownership, permissions of open files and forked children: the lock
  is exclusive and freed on death, directories are maps, and the checks that only read are one flag.
- Retrying an interrupted write is folded into the write that takes some of the bytes.
- Reordering of unflushed writes: power loss keeps everything flushed and any prefix of the rest.
- Writers that do not follow the protocol, on the guard directory or inside the installation's journal
  directory; roots that others put at the two target paths are modelled, and they stay where they are put.
- JSON beyond the canonical form of journal records: null, arrays, floats and non-ASCII escapes are
  refused by the model's reader, and times only in the form the writer produces are accepted.
- SHA-256, HMAC and UUID generation: functions or inputs; the order of dictionary iteration where the
  result does not depend on it.
- Regular expressions over evidence paths, lines and container fields: the model takes what they match as
  data (`Enrollment`, `LinkEvidence`, `RestoreIsolation`); those over event identities are modelled.
- SemVer.Parse: decimal digits outside ASCII, which the pattern's `\d` also admits.
- GuardJournal.ReadRecords: a UTC time in another ISO form than the writer's is refused.
- Rendering, receipts, printing and argument parsing.
- Float rounding, except the three- and six-digit roundings that a bound depends on.
- AssetManifest.WalkDirectory: the scan sees each directory's entries in name order, and changes during the
  scan are one flag per node.
- PortalActivation.Activate: the identity checks of token, zone and tunnel are one flag, and only this
  run writes to the zone.
- VaultProvision.ApplyPlan: its plan, window, bundle and legacy checks, the key files and the recovery proof.
- Enrollment.VerifyBundle: field-by-field checks of the role receipts and probes are flags, and
  re-reading installed routes is not modelled.
- HttpRetry.Connection.Send: parsing of the status line and header fields is a function parameter, the
  bytes of the request are not modelled, and a connection's stream is everything its peer sends on it.
- GuardProgress.ReadyPerform: generations of more than a hundred digits (`UndisturbedPerform` covers any
  call whose two records fit).
- PortalIngress.BuildPortalIngress: lower-casing changes ASCII letters only.
- StopPolicy, the ramp schedule and the virtual users of the load run.
- The source operator's remote checks, the TURN observer, package preparation, the FR-09 evidence gate,
  the load balancer and the autoscaler: long checklists or short case splits.
