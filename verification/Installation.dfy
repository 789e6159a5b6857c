/** The two-root publication of scripts/security/fr06_executor_installation.py, by a single
    writer that may die between any two effects, on a machine that may lose power, while others
    may put roots of their own at the two target paths. */
module Installation {
  import opened Prelude

  datatype Kind = GuardKind | LaunchKind

  datatype FileObject = FileObject(inode: nat, mode: nat, data: string)

  /** A directory tree to publish; `receipts` is the inode of its empty receipts directory. */
  datatype Root = Root(inode: nat, mode: nat, files: map<string, FileObject>, receipts: Option<nat>)

  datatype FileInfo = FileInfo(inode: nat, mode: nat, size: nat, sha256: string)

  datatype Snapshot = Snapshot(root: nat, mode: nat, files: map<string, FileInfo>, receipts: Option<nat>)

  /** The documents of the installation journal. */
  datatype Doc =
    | IntentDoc(operation: string)
    | CandidatesDoc(operation: string, objects: map<Kind, Snapshot>)
    | StageDoc(operation: string, kind: Kind, snapshot: Snapshot)
    | InstalledDoc(operation: string, objects: map<Kind, Snapshot>)

  /** A journal file: still being written, or sealed read-only with a whole document. */
  datatype LogFile = Torn | Sealed(doc: Doc)

  /** The files of the installation journal: intent.json, candidates.json, then for each root
      its intent and its observation, and files-installed.json. */
  datatype Name = IntentFile | CandidatesFile | StageIntent(kind: Kind) | StageObserved(kind: Kind) | InstalledFile

  /** The order in which they are written. */
  function Rank(name: Name): nat {
    match name
    case IntentFile => 0
    case CandidatesFile => 1
    case StageIntent(GuardKind) => 2
    case StageObserved(GuardKind) => 3
    case StageIntent(LaunchKind) => 4
    case StageObserved(LaunchKind) => 5
    case InstalledFile => 6
  }

  const ROUTES := ["aionex-fr06-primary", "aionex-fr06-watchdog", "aionex-fr06-interactive"]

  function ModeOf(kind: Kind): nat { if kind == GuardKind then 0x1C0 else 0x1ED }  // 0700 and 0755

  function SnapshotOf(sha: string -> string, root: Root): Snapshot {
    Snapshot(root.inode, root.mode,
             map name | name in root.files :: FileInfo(root.files[name].inode, root.files[name].mode,
                                                       |root.files[name].data|, sha(root.files[name].data)),
             root.receipts)
  }

  /** The exact shape a root must have: these files with these bytes and modes, and nothing else. */
  predicate Exact(kind: Kind, payload: map<string, string>, root: Root) {
    && root.mode == ModeOf(kind)
    && match kind
       case GuardKind =>
         root.files.Keys == {"execution.lock"} && root.receipts.Some?
         && root.files["execution.lock"].data == "" && root.files["execution.lock"].mode == 0x180
       case LaunchKind =>
         root.files.Keys == (set i | 0 <= i < |ROUTES| :: ROUTES[i]) && root.receipts == None
         && forall name | name in root.files ::
             name in payload && root.files[name].data == payload[name] && root.files[name].mode == 0x1ED
  }

  /** One file of the journal directory. */
  datatype Entry = Entry(name: Name, file: LogFile)

  // ----- what the documents say -----

  /** The operation that the first document of a journal names. */
  function OperationOf(log: seq<Entry>): Option<string> {
    if |log| > 0 && log[0].file.Sealed? && log[0].file.doc.IntentDoc? then Some(log[0].file.doc.operation) else None
  }

  /** The snapshots that its second document holds. */
  function ObjectsOf(log: seq<Entry>): Option<map<Kind, Snapshot>> {
    if |log| > 1 && log[1].file.Sealed? && log[1].file.doc.CandidatesDoc? then Some(log[1].file.doc.objects) else None
  }

  /** This document belongs into this file of this journal: it names the operation of the intent
      and holds the snapshots of the candidates. */
  predicate Apt(log: seq<Entry>, name: Name, doc: Doc) {
    match name
    case IntentFile => doc.IntentDoc?
    case CandidatesFile =>
      doc.CandidatesDoc? && OperationOf(log) == Some(doc.operation) && doc.objects.Keys == {GuardKind, LaunchKind}
    case InstalledFile =>
      doc.InstalledDoc? && OperationOf(log) == Some(doc.operation) && ObjectsOf(log) == Some(doc.objects)
    case _ =>
      && doc.StageDoc? && OperationOf(log) == Some(doc.operation) && doc.kind == name.kind
      && ObjectsOf(log).Some? && doc.kind in ObjectsOf(log).value && doc.snapshot == ObjectsOf(log).value[doc.kind]
  }

  /** The files stand in their order, and each sealed one has the document that belongs into it. */
  predicate Told(log: seq<Entry>) {
    && (forall i | 0 <= i < |log| :: Rank(log[i].name) == i)
    && (forall i | 0 <= i < |log| && log[i].file.Sealed? :: Apt(log, log[i].name, log[i].file.doc))
  }

  lemma AptInLonger(log: seq<Entry>, more: seq<Entry>, name: Name, doc: Doc)
    requires log <= more && Rank(name) <= |log|
    ensures Apt(log, name, doc) <==> Apt(more, name, doc)
  {
  }

  lemma ToldMore(log: seq<Entry>, name: Name, file: LogFile)
    requires Told(log) && Rank(name) == |log| && (file.Sealed? ==> Apt(log, name, file.doc))
    ensures Told(log + [Entry(name, file)])
  {
    hide Apt;
    var more := log + [Entry(name, file)];
    forall i | 0 <= i < |more| && more[i].file.Sealed? ensures Apt(more, more[i].name, more[i].file.doc) {
      AptInLonger(log, more, more[i].name, more[i].file.doc);
    }
  }

  lemma ToldTake(log: seq<Entry>, n: nat)
    requires Told(log) && n <= |log|
    ensures Told(log[..n])
  {
    hide Apt;
    forall i | 0 <= i < n && log[i].file.Sealed? ensures Apt(log[..n], log[i].name, log[i].file.doc) {
      AptInLonger(log[..n], log, log[i].name, log[i].file.doc);
    }
  }

  /** The snapshot says of the root exactly what it is. */
  ghost predicate Describes(sha: string -> string, snapshot: Snapshot, root: Root) {
    && snapshot.root == root.inode && snapshot.mode == root.mode && snapshot.receipts == root.receipts
    && snapshot.files.Keys == root.files.Keys
    && forall name | name in root.files ::
      && snapshot.files[name].inode == root.files[name].inode && snapshot.files[name].mode == root.files[name].mode
      && snapshot.files[name].size == |root.files[name].data|
      && snapshot.files[name].sha256 == sha(root.files[name].data)
  }

  /** Each object stands where it should and is what was recorded for it. */
  predicate Matching(sha: string -> string, objects: map<Kind, Snapshot>, staged: map<Kind, Root>,
                     targets: map<Kind, Root>) {
    forall kind | kind in objects ::
      if kind in targets then SnapshotOf(sha, targets[kind]) == objects[kind]
      else kind in staged && SnapshotOf(sha, staged[kind]) == objects[kind]
  }

  lemma MatchingMoved(sha: string -> string, objects: map<Kind, Snapshot>, staged: map<Kind, Root>,
                      targets: map<Kind, Root>, kind: Kind)
    requires Matching(sha, objects, staged, targets) && kind in staged && kind !in targets && kind in objects
    ensures Matching(sha, objects, staged - {kind}, targets[kind := staged[kind]])
  {
    hide SnapshotOf;
  }

  /** The guard root: private, with an empty private lock file and an empty receipts directory. */
  predicate GuardAsPackaged(root: Root) {
    && root.mode == 448 && root.receipts.Some? && root.files.Keys == {"execution.lock"}
    && root.files["execution.lock"].data == "" && root.files["execution.lock"].mode == 384
  }

  /** The launch root: the three executables of the package, readable by all, and nothing else. */
  predicate LaunchAsPackaged(payload: map<string, string>, root: Root) {
    && root.mode == 493 && root.receipts == None
    && root.files.Keys == {"aionex-fr06-primary", "aionex-fr06-watchdog", "aionex-fr06-interactive"}
    && forall name | name in root.files ::
      name in payload && root.files[name].data == payload[name] && root.files[name].mode == 493
  }

  lemma ExactMeans(payload: map<string, string>, guard: Root, launch: Root)
    requires Exact(GuardKind, payload, guard) && Exact(LaunchKind, payload, launch)
    ensures GuardAsPackaged(guard) && LaunchAsPackaged(payload, launch)
  {
    assert (set i | 0 <= i < |ROUTES| :: ROUTES[i]) == {ROUTES[0], ROUTES[1], ROUTES[2]};
  }

  lemma SnapshotDescribes(sha: string -> string, root: Root)
    ensures Describes(sha, SnapshotOf(sha, root), root)
  {
  }

  datatype Outcome = Done | Raised | Died

  /** What others have put somewhere is still there, as it was. */
  predicate KeepsForeign(before: map<Kind, Root>, after: map<Kind, Root>) {
    forall kind | kind in before :: kind in after && after[kind] == before[kind]
  }

  // ----- what a volume holds -----

  /** The document of a complete and flushed file. */
  function DocIn(log: seq<Entry>, durable: nat, name: Name): Option<Doc> {
    if Rank(name) < durable && Rank(name) < |log| && log[Rank(name)].file.Sealed?
    then Some(log[Rank(name)].file.doc) else None
  }

  /** The snapshots recorded before anything was published. */
  function RecordedIn(log: seq<Entry>, durable: nat): Option<map<Kind, Snapshot>> {
    match DocIn(log, durable, CandidatesFile)
    case Some(CandidatesDoc(_, objects)) => Some(objects)
    case _ => None
  }

  /** The directories of a volume and the renames of it that have been flushed. */
  datatype Roots = Roots(staged: map<Kind, Root>, targets: map<Kind, Root>, foreign: map<Kind, Root>,
                         settled: set<Kind>)

  /** This target stands and is exactly what was recorded for it, in a flushed journal file. */
  predicate Stands(sha: string -> string, log: seq<Entry>, durable: nat, roots: Roots, kind: Kind) {
    && kind in roots.targets && kind !in roots.staged && durable > Rank(StageIntent(kind))
    && RecordedIn(log, durable).Some? && kind in RecordedIn(log, durable).value
    && SnapshotOf(sha, roots.targets[kind]) == RecordedIn(log, durable).value[kind]
  }

  /** The journal files were begun in order, each only when all earlier ones were flushed. */
  predicate InTurn(log: seq<Entry>, durable: nat) {
    durable <= |log| <= durable + 1 && Told(log) && forall i | 0 <= i < durable :: log[i].file.Sealed?
  }

  /** What holds after every effect, and therefore after a death at any point. */
  ghost predicate SafeIn(sha: string -> string, log: seq<Entry>, durable: nat, roots: Roots) {
    && InTurn(log, durable)
    && roots.settled <= roots.targets.Keys && roots.foreign.Keys !! roots.targets.Keys
    // a target exists only if its own intent is durable and it is what was recorded
    && (forall kind | kind in roots.targets :: Stands(sha, log, durable, roots, kind))
    // the launch root only after the guard root was observed and its rename flushed
    && (LaunchKind in roots.targets ==> durable > Rank(StageObserved(GuardKind)) && GuardKind in roots.settled)
    // an observed record, even a torn one, only when its target stands on disk
    && (|log| > Rank(StageObserved(GuardKind)) ==> GuardKind in roots.settled)
    && (|log| > Rank(StageObserved(LaunchKind)) ==> LaunchKind in roots.settled)
    // the final record, even a torn one, only when both roots are published and flushed
    && (|log| > Rank(InstalledFile) ==> roots.settled == {GuardKind, LaunchKind})
  }

  /** The journal file with this name may be begun. */
  predicate MayBegin(log: seq<Entry>, durable: nat, roots: Roots, name: Name) {
    && |log| == durable == Rank(name)
    && (name == CandidatesFile ==> roots.targets == map[])
    && (name.StageObserved? ==> name.kind in roots.settled)
    && (name == InstalledFile ==> roots.settled == {GuardKind, LaunchKind})
  }

  /** More files change nothing about the flushed ones. */
  lemma FlushedStay(sha: string -> string, log: seq<Entry>, more: seq<Entry>, durable: nat, roots: Roots, kind: Kind)
    requires durable <= |log| && durable <= |more| && log[..durable] == more[..durable]
    ensures Stands(sha, log, durable, roots, kind) <==> Stands(sha, more, durable, roots, kind)
  {
    hide SnapshotOf;
    if durable > 1 { assert log[1] == log[..durable][1] == more[..durable][1] == more[1]; }
  }

  lemma SafeBegun(sha: string -> string, log: seq<Entry>, durable: nat, roots: Roots, name: Name, file: LogFile)
    requires SafeIn(sha, log, durable, roots) && MayBegin(log, durable, roots, name)
    requires file.Sealed? ==> Apt(log, name, file.doc)
    ensures SafeIn(sha, log + [Entry(name, file)], durable, roots)
  {
    hide Told, Stands, Apt;
    ToldMore(log, name, file);
    forall kind | kind in roots.targets ensures Stands(sha, log + [Entry(name, file)], durable, roots, kind) {
      FlushedStay(sha, log, log + [Entry(name, file)], durable, roots, kind);
    }
  }

  /** The file begun last is written, or torn again. */
  lemma SafeWritten(sha: string -> string, log: seq<Entry>, durable: nat, roots: Roots, file: LogFile)
    requires SafeIn(sha, log, durable, roots) && |log| == durable + 1
    requires file.Sealed? ==> Apt(log[..durable], log[durable].name, file.doc)
    ensures SafeIn(sha, log[..durable] + [Entry(log[durable].name, file)], durable, roots)
  {
    RankAt(log, durable);
    hide Told, Stands, Apt;
    var more := log[..durable] + [Entry(log[durable].name, file)];
    ToldTake(log, durable);
    ToldMore(log[..durable], log[durable].name, file);
    forall kind | kind in roots.targets ensures Stands(sha, more, durable, roots, kind) {
      FlushedStay(sha, log, more, durable, roots, kind);
    }
  }

  lemma SafeLost(sha: string -> string, log: seq<Entry>, durable: nat, roots: Roots)
    requires SafeIn(sha, log, durable, roots)
    ensures SafeIn(sha, log[..durable], durable, roots)
  {
    hide Told, Stands;
    ToldTake(log, durable);
    forall kind | kind in roots.targets ensures Stands(sha, log[..durable], durable, roots, kind) {
      FlushedStay(sha, log, log[..durable], durable, roots, kind);
    }
  }

  lemma SafeFlushed(sha: string -> string, log: seq<Entry>, durable: nat, roots: Roots)
    requires SafeIn(sha, log, durable, roots) && |log| == durable + 1 && log[durable].file.Sealed?
    ensures SafeIn(sha, log, durable + 1, roots)
  {
    hide Told, SnapshotOf;
  }

  /** A root is renamed into place. */
  lemma SafeMoved(sha: string -> string, log: seq<Entry>, durable: nat, roots: Roots, kind: Kind)
    requires SafeIn(sha, log, durable, roots)
    requires kind in roots.staged && kind !in roots.targets && kind !in roots.foreign
    requires RecordedIn(log, durable).Some? && kind in RecordedIn(log, durable).value
    requires SnapshotOf(sha, roots.staged[kind]) == RecordedIn(log, durable).value[kind]
    requires durable > Rank(StageIntent(kind))
    requires kind == LaunchKind ==> durable > Rank(StageObserved(GuardKind)) && GuardKind in roots.settled
    ensures SafeIn(sha, log, durable, Moved(roots, kind))
  {
    hide InTurn, SnapshotOf, RecordedIn;
  }

  function Moved(roots: Roots, kind: Kind): Roots
    requires kind in roots.staged
  {
    roots.(targets := roots.targets[kind := roots.staged[kind]], staged := roots.staged - {kind})
  }

  lemma SafeSettled(sha: string -> string, log: seq<Entry>, durable: nat, roots: Roots, kind: Kind)
    requires SafeIn(sha, log, durable, roots) && kind in roots.targets
    ensures SafeIn(sha, log, durable, roots.(settled := roots.settled + {kind}))
  {
    hide InTurn, SnapshotOf, RecordedIn;
    var after := roots.(settled := roots.settled + {kind});
    assert forall k | k in roots.targets :: Stands(sha, log, durable, roots, k) ==> Stands(sha, log, durable, after, k);
    assert roots.settled == {GuardKind, LaunchKind} ==> after.settled == {GuardKind, LaunchKind};
  }

  lemma SafeUndone(sha: string -> string, log: seq<Entry>, durable: nat, roots: Roots, kind: Kind)
    requires SafeIn(sha, log, durable, roots) && kind in roots.targets && kind !in roots.settled
    ensures SafeIn(sha, log, durable, Undone(roots, kind))
  {
    hide InTurn, SnapshotOf, RecordedIn;
  }

  function Undone(roots: Roots, kind: Kind): Roots
    requires kind in roots.targets
  {
    roots.(staged := roots.staged[kind := roots.targets[kind]], targets := roots.targets - {kind})
  }

  lemma SafeBuilt(sha: string -> string, log: seq<Entry>, durable: nat, roots: Roots, staged: map<Kind, Root>)
    requires SafeIn(sha, log, durable, roots) && roots.targets == map[]
    ensures SafeIn(sha, log, durable, roots.(staged := staged))
  {
    hide InTurn, Stands;
  }

  lemma SafeJoined(sha: string -> string, log: seq<Entry>, durable: nat, roots: Roots, kind: Kind, root: Root)
    requires SafeIn(sha, log, durable, roots) && kind !in roots.targets
    ensures SafeIn(sha, log, durable, roots.(foreign := roots.foreign[kind := root]))
  {
    hide InTurn, SnapshotOf, RecordedIn;
    var after := roots.(foreign := roots.foreign[kind := root]);
    assert forall k | k in roots.targets :: Stands(sha, log, durable, roots, k) ==> Stands(sha, log, durable, after, k);
  }

  lemma RankAt(log: seq<Entry>, i: nat)
    requires Told(log) && i < |log|
    ensures Rank(log[i].name) == i
  {
  }

  class Volume {
    const sha: string -> string
    var log: seq<Entry>                // regular files of the journal directory, as they were created
    var durable: nat                   // how many of them have been flushed
    var staged: map<Kind, Root>        // candidate directories inside the journal directory
    var targets: map<Kind, Root>       // what was published to the two target paths
    var foreign: map<Kind, Root>       // what others have put at a target path
    var settled: set<Kind>             // renames that have been flushed
    var inodes: nat
    ghost var troubles: nat            // deaths, refused checks and roots of others that turned up

    predicate Pristine()
      reads this`log, this`durable, this`staged, this`targets, this`foreign, this`settled
    {
      log == [] && staged == map[] && targets == map[] && foreign == map[]
    }

    /** Only what exists has been flushed, and a path holds one root. */
    ghost predicate Bookkept()
      reads this`log, this`durable, this`staged, this`targets, this`foreign, this`settled
    {
      durable <= |log| && settled <= targets.Keys && foreign.Keys !! targets.Keys
    }

    ghost function Directories(): Roots
      reads this`staged, this`targets, this`foreign, this`settled
    {
      Roots(staged, targets, foreign, settled)
    }

    function DocAt(name: Name): Option<Doc>
      reads this`log, this`durable
    {
      DocIn(log, durable, name)
    }

    function Recorded(): Option<map<Kind, Snapshot>>
      reads this`log, this`durable
    {
      RecordedIn(log, durable)
    }

    /** This target stands and is exactly what was recorded for it. */
    ghost predicate Published(kind: Kind)
      reads this`log, this`durable, this`staged, this`targets, this`foreign, this`settled
    {
      Stands(sha, log, durable, Directories(), kind)
    }

    ghost predicate Safe()
      reads this`log, this`durable, this`staged, this`targets, this`foreign, this`settled
    {
      SafeIn(sha, log, durable, Directories())
    }

    constructor (sha: string -> string)
      ensures Safe() && Pristine() && this.sha == sha
    {
      this.sha := sha;
      log, durable, staged, targets, foreign, settled, inodes, troubles := [], 0, map[], map[], map[], {}, 0, 0;
    }

    /** The process may die here. */
    method Dies() returns (dead: bool)
      modifies this`troubles
      ensures troubles == old(troubles) + if dead then 1 else 0
    {
      dead := *;
      troubles := troubles + if dead then 1 else 0;
    }

    ghost predicate Next(name: Name)
      reads this`log, this`durable, this`staged, this`targets, this`foreign, this`settled
    {
      MayBegin(log, durable, Directories(), name)
    }

    /** The next journal file is created, with nothing complete in it yet. */
    method Create(name: Name)
      requires Safe() && Next(name)
      modifies this`log
      ensures Safe() && log == old(log) + [Entry(name, Torn)]
    {
      hide SafeIn, MayBegin;
      SafeBegun(sha, log, durable, Directories(), name, Torn);
      log := log + [Entry(name, Torn)];
    }

    /** The file created last is written and sealed. */
    method Seal(doc: Doc)
      requires Safe() && |log| == durable + 1 && Apt(log[..durable], log[durable].name, doc)
      modifies this`log
      ensures Safe() && log == old(log)[..durable] + [Entry(old(log)[durable].name, Sealed(doc))]
    {
      hide SafeIn, Apt;
      SafeWritten(sha, log, durable, Directories(), Sealed(doc));
      log := log[..durable] + [Entry(log[durable].name, Sealed(doc))];
    }

    /** The sealed file and its directory entry are flushed. */
    method Flush()
      requires Safe() && |log| == durable + 1 && log[durable].file.Sealed?
      modifies this`durable
      ensures Safe() && durable == |log|
    {
      hide SafeIn;
      SafeFlushed(sha, log, durable, Directories());
      durable := durable + 1;
    }

    /** _record: create, write, seal and flush one journal file; false when the process dies. */
    method Record(name: Name, doc: Doc) returns (alive: bool)
      requires Safe() && Next(name) && Apt(log, name, doc)
      modifies this`log, this`durable, this`troubles
      ensures Safe()
      ensures alive ==> log == old(log) + [Entry(name, Sealed(doc))] && durable == |log|
      ensures !alive ==> old(log) <= log && durable == old(durable)
      ensures alive <==> troubles == old(troubles)
      ensures troubles >= old(troubles)
    {
      assert |log| == durable;
      hide SafeIn, MayBegin, Apt;
      var dead := Dies();
      if dead { return false; }
      Create(name);
      dead := Dies();
      if dead { return false; }
      assert log[..durable] == old(log);
      Seal(doc);
      dead := Dies();
      if dead { return false; }
      Flush();
      return true;
    }

    /** One new file of a candidate: created empty and private, written, given its mode. */
    method AddFile(kind: Kind, name: string, data: string, mode: nat) returns (alive: bool)
      requires kind in staged && name !in staged[kind].files
      modifies this`staged, this`inodes, this`troubles
      ensures alive <==> troubles == old(troubles)
      ensures troubles >= old(troubles)
      ensures kind in staged && staged.Keys == old(staged.Keys)
      ensures forall k | k in staged && k != kind :: staged[k] == old(staged)[k]
      ensures alive ==>
        exists inode: nat ::
          staged[kind] == old(staged)[kind].(files := old(staged)[kind].files[name := FileObject(inode, mode, data)])
    {
      var root, inode := staged[kind], inodes;
      var dead := Dies();
      if dead { return false; }
      inodes := inodes + 1;
      staged := staged[kind := root.(files := root.files[name := FileObject(inode, 0x180, "")])];
      dead := Dies();
      if dead { return false; }
      staged := staged[kind := root.(files := root.files[name := FileObject(inode, 0x180, data)])];
      dead := Dies();
      if dead { return false; }
      staged := staged[kind := root.(files := root.files[name := FileObject(inode, mode, data)])];
      return true;
    }

    /** The three executables of the launch candidate. */
    method AddRoutes(payload: map<string, string>) returns (alive: bool)
      requires LaunchKind in staged && staged[LaunchKind].files == map[]
      requires forall i | 0 <= i < |ROUTES| :: ROUTES[i] in payload
      modifies this`staged, this`inodes, this`troubles
      ensures alive <==> troubles == old(troubles)
      ensures troubles >= old(troubles)
      ensures staged.Keys == old(staged.Keys)
      ensures forall k | k in staged && k != LaunchKind :: staged[k] == old(staged)[k]
      ensures alive ==> staged[LaunchKind].receipts == old(staged)[LaunchKind].receipts
      ensures alive ==>
        && staged[LaunchKind].files.Keys == (set i | 0 <= i < |ROUTES| :: ROUTES[i])
        && forall name | name in staged[LaunchKind].files ::
          && name in payload && staged[LaunchKind].files[name].data == payload[name]
          && staged[LaunchKind].files[name].mode == 0x1ED
    {
      alive := AddFile(LaunchKind, ROUTES[0], payload[ROUTES[0]], 0x1ED);
      if !alive { return false; }
      alive := AddFile(LaunchKind, ROUTES[1], payload[ROUTES[1]], 0x1ED);
      if !alive { return false; }
      alive := AddFile(LaunchKind, ROUTES[2], payload[ROUTES[2]], 0x1ED);
    }

    /** A complete candidate directory for one root. */
    method BuildCandidate(kind: Kind, payload: map<string, string>) returns (alive: bool)
      requires kind !in staged && forall i | 0 <= i < |ROUTES| :: ROUTES[i] in payload
      modifies this`staged, this`inodes, this`troubles
      ensures alive <==> troubles == old(troubles)
      ensures troubles >= old(troubles)
      ensures staged.Keys <= old(staged.Keys) + {kind}
      ensures forall k | k in old(staged) && k != kind :: k in staged && staged[k] == old(staged)[k]
      ensures alive ==> kind in staged && Exact(kind, payload, staged[kind])
    {
      var dead := Dies();
      if dead { return false; }
      staged := staged[kind := Root(inodes, 0x1C0, map[], None)];
      inodes := inodes + 1;
      if kind == GuardKind {
        alive := AddFile(kind, "execution.lock", "", 0x180);
        if !alive { return false; }
        dead := Dies();
        if dead { return false; }
        staged := staged[kind := staged[kind].(receipts := Some(inodes))];
        inodes := inodes + 1;
      } else {
        alive := AddRoutes(payload);
        if !alive { return false; }
      }
      dead := Dies();
      if dead { return false; }
      staged := staged[kind := staged[kind].(mode := ModeOf(kind))];
      return true;
    }

    /** Somebody else may put a root at a free target path. */
    method Interfere()
      requires Safe()
      modifies this`foreign, this`troubles
      ensures Safe() && KeepsForeign(old(foreign), foreign)
      ensures foreign == old(foreign) <==> troubles == old(troubles)
      ensures troubles >= old(troubles)
    {
      hide SafeIn;
      var kind: Kind, root: Root, comes: bool := *, *, *;
      if comes && kind !in targets && kind !in foreign {
        SafeJoined(sha, log, durable, Directories(), kind, root);
        foreign, troubles := foreign[kind := root], troubles + 1;
      }
    }

    /** _rename_no_replace and the two directory flushes. */
    method Publish(kind: Kind) returns (outcome: Outcome)
      requires Safe() && kind in staged && kind !in targets
      requires Recorded().Some? && kind in Recorded().value && SnapshotOf(sha, staged[kind]) == Recorded().value[kind]
      requires durable > Rank(StageIntent(kind))
      requires kind == LaunchKind ==> durable > Rank(StageObserved(GuardKind)) && GuardKind in settled
      modifies this`staged, this`targets, this`settled, this`troubles
      ensures Safe()
      ensures kind !in foreign ==> (outcome == Done <==> troubles == old(troubles))
      ensures troubles >= old(troubles)
      ensures outcome == Done ==> targets == old(targets)[kind := old(staged)[kind]] && staged == old(staged) - {kind}
      ensures outcome == Done ==> settled == old(settled) + {kind}
      // A root that already stands there is not replaced.
      ensures kind in foreign ==> outcome != Done && targets == old(targets) && staged == old(staged)
      ensures outcome == Raised ==> kind in foreign
    {
      hide SafeIn, SnapshotOf;
      var dead := Dies();
      if dead { return Died; }
      if kind in foreign { return Raised; }
      SafeMoved(sha, log, durable, Directories(), kind);
      targets, staged := targets[kind := staged[kind]], staged - {kind};
      dead := Dies();
      if dead { return Died; }
      SafeSettled(sha, log, durable, Directories(), kind);
      settled := settled + {kind};
      return Done;
    }

    /** recheck: the caller's authority and the package are still the same, the journal still
        holds what was written, and both objects still match their recorded snapshots. */
    method Recheck() returns (ok: bool)
      requires Recorded().Some?
      modifies this`troubles
      ensures ok ==> Matching(sha, Recorded().value, staged, targets)
      ensures Matching(sha, Recorded().value, staged, targets) ==> (ok <==> troubles == old(troubles))
      ensures troubles >= old(troubles)
    {
      var same: bool := *;
      troubles := troubles + if same then 0 else 1;
      ok := same && Matching(sha, Recorded().value, staged, targets);
    }

    /** The publication loop has come to this root. */
    ghost predicate Due(kind: Kind, operation: string, objects: map<Kind, Snapshot>)
      reads this`log, this`durable, this`staged, this`targets, this`foreign, this`settled
    {
      && Next(StageIntent(kind)) && Recorded() == Some(objects) && Matching(sha, objects, staged, targets)
      && OperationOf(log) == Some(operation) && ObjectsOf(log) == Some(objects)
      && objects.Keys == {GuardKind, LaunchKind} && kind in staged && kind !in targets
      && (kind == LaunchKind ==> GuardKind in settled)
    }

    /** One round of the publication loop, up to the rename. */
    method MoveIntoPlace(kind: Kind, operation: string, objects: map<Kind, Snapshot>) returns (outcome: Outcome)
      requires Safe() && Due(kind, operation, objects)
      modifies this`log, this`durable, this`staged, this`targets, this`settled, this`foreign, this`troubles
      ensures Safe() && KeepsForeign(old(foreign), foreign)
      ensures kind in old(foreign) ==> outcome == Raised && log == old(log) && targets == old(targets)
      ensures outcome == Done ==>
        log == old(log) + [Entry(StageIntent(kind), Sealed(StageDoc(operation, kind, objects[kind])))]
      ensures outcome == Done ==> durable == |log|
      ensures outcome == Done ==> targets == old(targets)[kind := old(staged)[kind]] && staged == old(staged) - {kind}
      ensures outcome == Done ==> settled == old(settled) + {kind}
      ensures troubles >= old(troubles) && (troubles == old(troubles) ==> foreign == old(foreign))
      ensures kind !in old(foreign) && troubles == old(troubles) ==> outcome == Done
    {
      hide SnapshotOf, SafeIn, Matching;
      var ok := Recheck();
      if !ok { return Raised; }
      Interfere();
      if kind in foreign { return Raised; }
      outcome := StartStage(kind, operation, objects);
    }

    /** The durable intent of a stage, then the rename. */
    method StartStage(kind: Kind, operation: string, objects: map<Kind, Snapshot>) returns (outcome: Outcome)
      requires Safe() && Due(kind, operation, objects)
      modifies this`log, this`durable, this`staged, this`targets, this`settled, this`foreign, this`troubles
      ensures Safe() && KeepsForeign(old(foreign), foreign)
      ensures outcome == Done ==>
        log == old(log) + [Entry(StageIntent(kind), Sealed(StageDoc(operation, kind, objects[kind])))]
      ensures outcome == Done ==> durable == |log|
      ensures outcome == Done ==> targets == old(targets)[kind := old(staged)[kind]] && staged == old(staged) - {kind}
      ensures outcome == Done ==> settled == old(settled) + {kind}
      ensures troubles >= old(troubles) && (troubles == old(troubles) ==> foreign == old(foreign))
      ensures kind !in old(foreign) && troubles == old(troubles) ==> outcome == Done
    {
      StageIsApt(kind, operation, objects);
      PieceMatches(kind, objects);
      hide SnapshotOf, SafeIn, Matching, Apt;
      var alive := Record(StageIntent(kind), StageDoc(operation, kind, objects[kind]));
      if !alive { return Died; }
      var ok := Recheck();
      if !ok { return Raised; }
      Interfere();
      outcome := Publish(kind);
    }

    /** One round of the publication loop. */
    method PublishStage(kind: Kind, operation: string, objects: map<Kind, Snapshot>) returns (outcome: Outcome)
      requires Safe() && Due(kind, operation, objects)
      modifies this`log, this`durable, this`staged, this`targets, this`settled, this`foreign, this`troubles
      ensures Safe() && KeepsForeign(old(foreign), foreign)
      ensures kind in old(foreign) ==> outcome == Raised && log == old(log) && targets == old(targets)
      ensures outcome == Done ==> old(log) <= log && |log| == durable == Rank(StageObserved(kind)) + 1
      ensures outcome == Done ==> Recorded() == Some(objects) && Matching(sha, objects, staged, targets)
      ensures outcome == Done ==> targets == old(targets)[kind := old(staged)[kind]] && staged == old(staged) - {kind}
      ensures outcome == Done ==> settled == old(settled) + {kind}
      ensures troubles >= old(troubles) && (troubles == old(troubles) ==> foreign == old(foreign))
      ensures kind !in old(foreign) && troubles == old(troubles) ==> outcome == Done
    {
      hide SnapshotOf, SafeIn, Matching, Apt;
      outcome := MoveIntoPlace(kind, operation, objects);
      if outcome != Done { return; }
      MatchingMoved(sha, objects, old(staged), old(targets), kind);
      StageIsApt(kind, operation, objects);
      var ok := Recheck();
      if !ok { return Raised; }
      var alive := Record(StageObserved(kind), StageDoc(operation, kind, objects[kind]));
      return if alive then Done else Died;
    }

    lemma StageIsApt(kind: Kind, operation: string, objects: map<Kind, Snapshot>)
      requires OperationOf(log) == Some(operation) && ObjectsOf(log) == Some(objects) && kind in objects
      ensures Apt(log, StageIntent(kind), StageDoc(operation, kind, objects[kind]))
      ensures Apt(log, StageObserved(kind), StageDoc(operation, kind, objects[kind]))
    {
    }

    lemma PieceMatches(kind: Kind, objects: map<Kind, Snapshot>)
      requires Matching(sha, objects, staged, targets) && kind in objects && kind !in targets
      ensures kind in staged && SnapshotOf(sha, staged[kind]) == objects[kind]
    {
    }

    /** install_unenrolled.  `admitted` stands for the checks that only read: identities, the
        package, the authority, the paths and the file system. */
    method InstallUnenrolled(admitted: bool, operation: string, payload: map<string, string>) returns (outcome: Outcome)
      requires Bookkept() && forall i | 0 <= i < |ROUTES| :: ROUTES[i] in payload
      modifies this
      ensures old(Safe()) || old(Pristine()) ==> Safe()
      // Whatever else stands in the journal directory or at a target path: nothing is touched.
      ensures !admitted || !old(Pristine()) ==> outcome == Raised && unchanged(this)
      // Nothing died, no check failed and nobody else turned up: the installation is done.
      ensures admitted && old(Pristine()) && troubles == old(troubles) ==> outcome == Done
      ensures outcome == Done ==> durable == |log| == 7 && settled == {GuardKind, LaunchKind} && staged == map[]
      ensures outcome == Done ==> DocAt(IntentFile) == Some(IntentDoc(operation))
      ensures outcome == Done ==>
        && DocAt(InstalledFile).Some? && DocAt(InstalledFile).value.InstalledDoc?
        && DocAt(InstalledFile).value.operation == operation
        && DocAt(InstalledFile).value.objects.Keys == targets.Keys == {GuardKind, LaunchKind}
        && (forall kind | kind in targets :: Describes(sha, DocAt(InstalledFile).value.objects[kind], targets[kind]))
      ensures KeepsForeign(old(foreign), foreign)
      ensures outcome == Done ==> foreign == map[]
      ensures outcome == Done ==> GuardAsPackaged(targets[GuardKind]) && LaunchAsPackaged(payload, targets[LaunchKind])
    {
      hide SnapshotOf, Exact, SafeIn, Matching, Describes, GuardAsPackaged, LaunchAsPackaged;
      if Pristine() { PristineIsSafe(); }
      if !admitted || !(log == [] && staged == map[] && targets == map[] && foreign == map[]) {
        return Raised;
      }
      var refused := Dies();
      if refused { return Raised; }
      var objects;
      outcome, objects := PrepareCandidates(operation, payload);
      if outcome != Done { return; }
      outcome := PublishBoth(operation, objects);
      if outcome == Done {
        ExactMeans(payload, targets[GuardKind], targets[LaunchKind]);
        FinalRecordTells(operation);
      }
    }

    lemma FinalRecordTells(operation: string)
      requires Safe() && durable == |log| == 7 && OperationOf(log) == Some(operation)
      ensures DocAt(IntentFile) == Some(IntentDoc(operation))
      ensures DocAt(InstalledFile).Some? && DocAt(InstalledFile).value.InstalledDoc?
      ensures DocAt(InstalledFile).value.operation == operation
      ensures DocAt(InstalledFile).value.objects.Keys == targets.Keys == {GuardKind, LaunchKind}
      ensures forall kind | kind in targets :: Describes(sha, DocAt(InstalledFile).value.objects[kind], targets[kind])
    {
      assert log[0].file.Sealed? && log[6].file.Sealed?;
      hide SnapshotOf, Describes, SafeIn;
      JournalTellsTheTruth(this);
    }

    lemma NoPathFree()
      requires Safe() && targets.Keys == {GuardKind, LaunchKind}
      ensures foreign == map[]
    {
      hide Stands, InTurn;
      forall kind: Kind ensures kind !in foreign {
        assert kind in targets.Keys by {
          match kind
          case GuardKind =>
          case LaunchKind =>
        }
      }
    }

    /** The publication loop and the final record. */
    method PublishBoth(operation: string, objects: map<Kind, Snapshot>) returns (outcome: Outcome)
      requires Safe() && |log| == durable == 2 && targets == map[] && settled == {}
      requires Due(GuardKind, operation, objects)
      requires staged.Keys == {GuardKind, LaunchKind} && foreign == map[]
      modifies this`log, this`durable, this`staged, this`targets, this`settled, this`foreign, this`troubles
      ensures Safe() && KeepsForeign(old(foreign), foreign)
      ensures outcome == Done ==> durable == |log| == 7 && settled == {GuardKind, LaunchKind} && staged == map[]
      ensures outcome == Done ==> targets == old(staged) && foreign == map[] && OperationOf(log) == Some(operation)
      ensures troubles >= old(troubles) && (troubles == old(troubles) ==> outcome == Done)
    {
      hide SnapshotOf, SafeIn, Matching, Apt;
      outcome := PublishStage(GuardKind, operation, objects);
      if outcome != Done { return; }
      outcome := PublishStage(LaunchKind, operation, objects);
      if outcome != Done { return; }
      assert targets == old(staged);
      NoPathFree();
      var ok := Recheck();
      if !ok { return Raised; }
      FinalIsApt(operation, objects);
      var alive := Record(InstalledFile, InstalledDoc(operation, objects));
      return if alive then Done else Died;
    }

    lemma FinalIsApt(operation: string, objects: map<Kind, Snapshot>)
      requires OperationOf(log) == Some(operation) && ObjectsOf(log) == Some(objects)
      ensures Apt(log, InstalledFile, InstalledDoc(operation, objects))
    {
    }

    /** The intent, both candidates and their recorded snapshots. */
    method PrepareCandidates(operation: string, payload: map<string, string>)
        returns (outcome: Outcome, objects: map<Kind, Snapshot>)
      requires Safe() && Pristine() && forall i | 0 <= i < |ROUTES| :: ROUTES[i] in payload
      modifies this`log, this`durable, this`staged, this`inodes, this`troubles
      ensures Safe()
      ensures outcome == Done ==> |log| == durable == 2 && Recorded() == ObjectsOf(log) == Some(objects)
      ensures outcome == Done ==> OperationOf(log) == Some(operation)
      ensures outcome == Done ==> staged.Keys == {GuardKind, LaunchKind} == objects.Keys
      ensures outcome == Done ==>
        Exact(GuardKind, payload, staged[GuardKind]) && Exact(LaunchKind, payload, staged[LaunchKind])
      ensures outcome == Done ==> Matching(sha, objects, staged, targets)
      ensures troubles >= old(troubles) && (troubles == old(troubles) ==> outcome == Done)
    {
      assert durable == 0;
      hide SnapshotOf, Exact, SafeIn, Apt;
      objects := map[];
      assert Apt(log, IntentFile, IntentDoc(operation)) by { IntentIsApt(operation); }
      var alive := Record(IntentFile, IntentDoc(operation));
      if !alive { return Died, objects; }
      alive := BuildBoth(payload);
      if !alive { return Died, objects; }
      objects := map[GuardKind := SnapshotOf(sha, staged[GuardKind]),
                     LaunchKind := SnapshotOf(sha, staged[LaunchKind])];
      CandidatesAreApt(operation, objects);
      alive := Record(CandidatesFile, CandidatesDoc(operation, objects));
      return (if alive then Done else Died), objects;
    }

    method BuildBoth(payload: map<string, string>) returns (alive: bool)
      requires Safe() && staged == targets == map[] && forall i | 0 <= i < |ROUTES| :: ROUTES[i] in payload
      modifies this`staged, this`inodes, this`troubles
      ensures Safe()
      ensures alive <==> troubles == old(troubles)
      ensures troubles >= old(troubles)
      ensures alive ==> staged.Keys == {GuardKind, LaunchKind}
      ensures alive ==>
        Exact(GuardKind, payload, staged[GuardKind]) && Exact(LaunchKind, payload, staged[LaunchKind])
    {
      hide SafeIn, Exact;
      ghost var before := Directories();
      alive := BuildCandidate(GuardKind, payload);
      SafeBuilt(sha, log, durable, before, staged);
      if !alive { return false; }
      alive := BuildCandidate(LaunchKind, payload);
      SafeBuilt(sha, log, durable, before, staged);
    }

    lemma IntentIsApt(operation: string)
      ensures Apt(log, IntentFile, IntentDoc(operation))
    {
    }

    lemma CandidatesAreApt(operation: string, objects: map<Kind, Snapshot>)
      requires OperationOf(log) == Some(operation) && objects.Keys == {GuardKind, LaunchKind}
      ensures Apt(log, CandidatesFile, CandidatesDoc(operation, objects))
    {
    }

    lemma PristineIsSafe()
      requires Bookkept() && Pristine()
      ensures Safe() && settled == {}
    {
    }

    /** The machine loses power: a journal file that was not flushed may be torn or gone, and
        a rename that was not flushed may be undone. */
    method PowerLoss()
      requires Safe()
      modifies this
      ensures Safe()
      ensures |log| >= old(durable) && log[..old(durable)] == old(log)[..old(durable)]
      ensures forall kind | kind in old(settled) :: kind in targets && targets[kind] == old(targets)[kind]
    {
      LoseFiles();
      UndoRenames();
    }

    method LoseFiles()
      requires Safe()
      modifies this`log
      ensures Safe()
      ensures |log| >= durable && log[..durable] == old(log)[..durable]
    {
      assert |log| > durable ==> |log| == durable + 1;
      hide SafeIn;
      if |log| > durable {
        if * {
          SafeLost(sha, log, durable, Directories());
          log := log[..durable];
        } else {
          SafeWritten(sha, log, durable, Directories(), Torn);
          log := log[..durable] + [Entry(log[durable].name, Torn)];
        }
      }
    }

    method UndoRenames()
      requires Safe()
      modifies this`staged, this`targets
      ensures Safe()
      ensures forall kind | kind in settled :: kind in targets && targets[kind] == old(targets)[kind]
    {
      if LaunchKind in targets && LaunchKind !in settled {
        if * { UndoRename(LaunchKind); }
      }
      if GuardKind in targets && GuardKind !in settled {
        if * { UndoRename(GuardKind); }
      }
    }

    method UndoRename(kind: Kind)
      requires Safe() && kind in targets && kind !in settled
      modifies this`staged, this`targets
      ensures Safe() && targets == old(targets) - {kind} && staged == old(staged)[kind := old(targets)[kind]]
    {
      hide SafeIn;
      SafeUndone(sha, log, durable, Directories(), kind);
      staged, targets := staged[kind := targets[kind]], targets - {kind};
    }
  }

  /** The sealed final record of this volume names the operation of the intent and describes exactly
      the two roots that stand. */
  ghost predicate FinalRecordIsTrue(v: Volume)
    reads v
  {
    && |v.log| == 7 && v.log[6].file.Sealed? && v.log[6].file.doc.InstalledDoc?
    && v.log[0].file.Sealed? && v.log[0].file.doc == IntentDoc(v.log[6].file.doc.operation)
    && v.log[6].file.doc.objects.Keys == v.targets.Keys == {GuardKind, LaunchKind}
    && forall kind | kind in v.targets :: Describes(v.sha, v.log[6].file.doc.objects[kind], v.targets[kind])
  }

  /** What a reader may conclude from the journal of any safe volume: the final record, even a
      torn one, means that both roots stand and match their recorded snapshots, and a sealed one
      describes them; an observation of a root means that root does. */
  lemma JournalTellsTheTruth(v: Volume)
    requires v.Safe()
    ensures |v.log| > Rank(InstalledFile) ==> v.Published(GuardKind) && v.Published(LaunchKind)
    ensures |v.log| > 6 && v.log[6].file.Sealed? ==> FinalRecordIsTrue(v)
    ensures |v.log| > Rank(StageObserved(LaunchKind)) ==> v.Published(LaunchKind)
    ensures |v.log| > Rank(StageObserved(GuardKind)) ==> v.Published(GuardKind)
    ensures LaunchKind in v.targets ==>
      v.Published(GuardKind) && v.DocAt(StageObserved(GuardKind)).Some? && GuardKind in v.settled
    ensures v.log == [] ==> GuardKind !in v.targets && LaunchKind !in v.targets
  {
    hide SnapshotOf, Told, RecordedIn;
    assert |v.log| > Rank(StageObserved(GuardKind)) ==> GuardKind in v.targets;
    if |v.log| > 6 && v.log[6].file.Sealed? { SealedTells(v); }
  }

  lemma SealedTells(v: Volume)
    requires v.Safe() && |v.log| > 6 && v.log[6].file.Sealed?
    ensures FinalRecordIsTrue(v)
  {
    hide SnapshotOf, Describes, Apt;
    assert InTurn(v.log, v.durable);
    AtRank(v.log, 0, IntentFile);
    AtRank(v.log, 1, CandidatesFile);
    AtRank(v.log, 6, InstalledFile);
    NoMore(v.log);
    assert v.Published(GuardKind) && v.Published(LaunchKind);
    hide Told;
    SealedSays(v.log);
    assert v.targets.Keys == {GuardKind, LaunchKind};
    SnapshotDescribes(v.sha, v.targets[GuardKind]);
    SnapshotDescribes(v.sha, v.targets[LaunchKind]);
  }

  lemma AtRank(log: seq<Entry>, n: nat, name: Name)
    requires Told(log) && n < |log| && Rank(name) == n
    ensures log[n].name == name
    ensures log[n].file.Sealed? ==> Apt(log, name, log[n].file.doc)
  {
    hide Apt;
  }

  lemma NoMore(log: seq<Entry>)
    requires Told(log)
    ensures |log| <= 7
  {
    hide Apt;
    assert |log| > 7 ==> Rank(log[7].name) == 7;
  }

  lemma SealedSays(log: seq<Entry>)
    requires |log| > 6 && log[0].file.Sealed? && log[1].file.Sealed? && log[6].file.Sealed?
    requires Apt(log, IntentFile, log[0].file.doc) && Apt(log, CandidatesFile, log[1].file.doc)
    requires Apt(log, InstalledFile, log[6].file.doc)
    ensures log[6].file.doc.InstalledDoc? && log[0].file.doc == IntentDoc(log[6].file.doc.operation)
    ensures log[1].file.doc.CandidatesDoc? && log[6].file.doc.objects == log[1].file.doc.objects
    ensures log[6].file.doc.objects.Keys == {GuardKind, LaunchKind}
  {
  }
}
