/** Opening and provisioning the production vaults with undo on failure (unlock_vaults and
    apply_plan of scripts/security/fr06b4_vault_provision.py). */
module VaultProvision {
  datatype Vault = AssetVault | ProjectExecutionVault

  const VAULTS: seq<Vault> := [AssetVault, ProjectExecutionVault]

  /** What the two functions create on the host for a vault. */
  datatype Resource = Image(vault: Vault) | Mapper(vault: Vault) | Mount(vault: Vault) | Volume(vault: Vault)

  function Members(s: seq<Resource>): set<Resource> { set r | r in s }

  predicate Distinct(s: seq<Resource>) { forall i, j | 0 <= i < j < |s| :: s[i] != s[j] }

  /** The host. A command that reports failure (or runs into its timeout) may have taken effect,
      and an undo command may not: `mishaps` counts both. */
  class Host {
    var held: set<Resource>
    var headers: bool
    var receipt: bool
    var consumed: bool
    var unlockReceipts: nat
    ghost var mishaps: nat

    constructor (held: set<Resource>, headers: bool, receipt: bool, consumed: bool)
      ensures this.held == held && this.headers == headers && this.receipt == receipt && this.consumed == consumed
      ensures unlockReceipts == 0 && mishaps == 0
    {
      this.held, this.headers, this.receipt, this.consumed := held, headers, receipt, consumed;
      unlockReceipts, mishaps := 0, 0;
    }

    /** A command that only looks, or whose effect nothing here depends on. */
    method Look() returns (ok: bool) {
      ok := *;
    }

    /** _write_exclusive: refuses a file that is there; its write or fsync can fail with the file
        already created, and nothing removes it. */
    method WriteExclusive(there: bool) returns (ok: bool, now: bool)
      ensures there ==> !ok && now
      ensures ok ==> now
    {
      if there { return false, true; }
      now := *;
      ok := *;
      ok := ok && now;
    }

    /** fallocate, cryptsetup open, mount or docker volume create. */
    method Create(r: Resource) returns (ok: bool)
      modifies this`held, this`mishaps
      ensures ok ==> held == old(held) + {r} && mishaps == old(mishaps)
      ensures !ok ==>
        (held == old(held) && mishaps == old(mishaps)) || (held == old(held) + {r} && mishaps > old(mishaps))
    {
      if * {
        held := held + {r};
        return true;
      }
      if * {
        held := held + {r};
        mishaps := mishaps + 1;
      }
      return false;
    }

    /** The list undone from its end; a failure is not looked at, and a mapper that is still
        mounted does not close. */
    method Undo(made: seq<Resource>)
      requires Members(made) <= held && Distinct(made)
      modifies this`held, this`mishaps
      ensures old(held) - Members(made) <= held <= old(held) && mishaps >= old(mishaps)
      ensures mishaps == old(mishaps) <==> held == old(held) - Members(made)
    {
      var n := |made|;
      while n > 0
        invariant 0 <= n <= |made| && mishaps >= old(mishaps)
        invariant old(held) - Members(made[n..]) <= held <= old(held)
        invariant mishaps == old(mishaps) <==> held == old(held) - Members(made[n..])
      {
        n := n - 1;
        Split(made, n);
        var works: bool := *;
        if works && !(made[n].Mapper? && Mount(made[n].vault) in held) {
          held := held - {made[n]};
        } else {
          mishaps := mishaps + 1;
        }
      }
      assert made[0..] == made;
    }
  }

  lemma Split(s: seq<Resource>, n: nat)
    requires n < |s| && Distinct(s)
    ensures Members(s[n..]) == Members(s[n + 1..]) + {s[n]} && s[n] !in Members(s[n + 1..])
  {
    assert s[n..] == [s[n]] + s[n + 1..];
  }

  /** The lists the functions keep of what they have made. */
  datatype Done = Done(images: seq<Resource>, mappers: seq<Resource>, mounts: seq<Resource>, volumes: seq<Resource>)

  const NOTHING := Done([], [], [], [])

  function Made(d: Done): set<Resource> {
    Members(d.images) + Members(d.mappers) + Members(d.mounts) + Members(d.volumes)
  }

  /** Each list holds its own kind, without repetition. */
  predicate Sorted(d: Done) {
    && Distinct(d.images) && Distinct(d.mappers) && Distinct(d.mounts) && Distinct(d.volumes)
    && (forall r | r in d.images :: r.Image?) && (forall r | r in d.mappers :: r.Mapper?)
    && (forall r | r in d.mounts :: r.Mount?) && (forall r | r in d.volumes :: r.Volume?)
  }

  /** The undo of both functions: volumes, mounts, mappers, then images. */
  method UndoAll(h: Host, d: Done)
    requires Made(d) <= h.held && Sorted(d)
    modifies h`held, h`mishaps
    ensures old(h.held) - Made(d) <= h.held <= old(h.held) && h.mishaps >= old(h.mishaps)
    ensures h.mishaps == old(h.mishaps) <==> h.held == old(h.held) - Made(d)
  {
    h.Undo(d.volumes);
    h.Undo(d.mounts);
    h.Undo(d.mappers);
    h.Undo(d.images);
  }

  /** Adding to one list. */
  lemma AddMade(s: seq<Resource>, r: Resource)
    requires r !in s && Distinct(s)
    ensures Members(s + [r]) == Members(s) + {r} && Distinct(s + [r])
  {
    forall x ensures x in s + [r] <==> x in s || x == r { }
  }

  lemma AddImage(d: Done, r: Resource)
    requires Sorted(d) && r.Image? && r !in Made(d)
    ensures Sorted(d.(images := d.images + [r])) && Made(d.(images := d.images + [r])) == Made(d) + {r}
  {
    AddMade(d.images, r);
    hide Distinct;
  }

  lemma AddMapper(d: Done, r: Resource)
    requires Sorted(d) && r.Mapper? && r !in Made(d)
    ensures Sorted(d.(mappers := d.mappers + [r])) && Made(d.(mappers := d.mappers + [r])) == Made(d) + {r}
  {
    AddMade(d.mappers, r);
    hide Distinct;
  }

  lemma AddMount(d: Done, r: Resource)
    requires Sorted(d) && r.Mount? && r !in Made(d)
    ensures Sorted(d.(mounts := d.mounts + [r])) && Made(d.(mounts := d.mounts + [r])) == Made(d) + {r}
  {
    AddMade(d.mounts, r);
    hide Distinct;
  }

  lemma AddVolume(d: Done, r: Resource)
    requires Sorted(d) && r.Volume? && r !in Made(d)
    ensures Sorted(d.(volumes := d.volumes + [r])) && Made(d.(volumes := d.volumes + [r])) == Made(d) + {r}
  {
    AddMade(d.volumes, r);
    hide Distinct;
  }

  // ----- unlock_vaults -----

  predicate Closed(held: set<Resource>) { forall v :: Mapper(v) !in held && Mount(v) !in held }

  predicate AllOpen(held: set<Resource>) { forall v :: Mapper(v) in held && Mount(v) in held }

  /** Opens and mounts each vault in turn, or closes again whatever was opened; `left` says that the
      last write failed after it had created its receipt. */
  method UnlockVaults(h: Host) returns (ok: bool, left: bool)
    modifies h`held, h`mishaps, h`unlockReceipts
    // On success every vault is open and mounted, and nothing else has changed.
    ensures ok ==> AllOpen(h.held)
    ensures ok ==> forall v ::
      (Image(v) in h.held <==> Image(v) in old(h.held)) && (Volume(v) in h.held <==> Volume(v) in old(h.held))
    // A host that is not fully closed is left alone.
    ensures !Closed(old(h.held)) ==> !ok && !left && h.held == old(h.held)
    // After a failure the host is as it was exactly when every command did what it reported.
    ensures !ok ==> (h.held == old(h.held) <==> h.mishaps == old(h.mishaps))
    // A receipt stays after success, and after a failure that had created it: it is not removed,
    // although every vault has been closed again.
    ensures h.unlockReceipts == old(h.unlockReceipts) + (if ok || left then 1 else 0) && !(ok && left)
  {
    left := false;
    if !Closed(h.held) { return false, false; }
    var done, n := NOTHING, 0;
    assert Made(done) == {};
    while n < |VAULTS|
      invariant 0 <= n <= |VAULTS| && h.mishaps == old(h.mishaps) && h.unlockReceipts == old(h.unlockReceipts)
      invariant Sorted(done)
      invariant h.held == old(h.held) + Made(done) && Made(done) !! old(h.held)
      invariant forall r :: r in Made(done) <==> r.vault in VAULTS[..n] && (r.Mapper? || r.Mount?)
    {
      var v := VAULTS[n];
      assert VAULTS[..n + 1] == VAULTS[..n] + [v] && v !in VAULTS[..n];
      assert Mapper(v) !in Made(done) && Mount(v) !in Made(done);
      ok, done := UnlockOne(h, v, done);
      if !ok {
        UndoAll(h, done);
        return false, false;
      }
      n := n + 1;
    }
    AllVaults();
    assert VAULTS[..n] == VAULTS;
    ok, left := WriteUnlockReceipt(h);
    if !ok {
      UndoAll(h, done);
    }
  }

  /** The verification of the host and the receipt of the unlock. */
  method WriteUnlockReceipt(h: Host) returns (ok: bool, left: bool)
    modifies h`unlockReceipts
    ensures h.unlockReceipts == old(h.unlockReceipts) + (if ok || left then 1 else 0) && !(ok && left)
  {
    ok := h.Look();
    if !ok { return false, false; }
    var written;
    ok, written := h.WriteExclusive(false);
    if written { h.unlockReceipts := h.unlockReceipts + 1; }
    left := written && !ok;
  }

  lemma AllVaults()
    ensures forall v :: v in VAULTS
  {
    forall v ensures v in VAULTS {
      match v
      case AssetVault => assert VAULTS[0] == v;
      case ProjectExecutionVault => assert VAULTS[1] == v;
    }
  }

  /** One turn of the loop; after a failure the lists hold what was made and is still to be undone. */
  method UnlockOne(h: Host, v: Vault, done: Done) returns (ok: bool, next: Done)
    requires Sorted(done) && Made(done) <= h.held && Mapper(v) !in h.held && Mount(v) !in h.held
    modifies h`held, h`mishaps
    ensures Sorted(next) && h.mishaps >= old(h.mishaps) && Made(next) <= h.held
    ensures Made(next) <= Made(done) + {Mapper(v), Mount(v)}
    ensures ok ==> h.mishaps == old(h.mishaps) && Made(next) == Made(done) + {Mapper(v), Mount(v)}
    ensures ok ==> h.held == old(h.held) + {Mapper(v), Mount(v)}
    ensures old(h.held) <= h.held
    ensures !ok ==> (h.mishaps == old(h.mishaps) <==> h.held - Made(next) == old(h.held) - Made(done))
  {
    hide Sorted, Made;
    next := done;
    ok := h.Create(Mapper(v));
    if !ok {
      assert h.mishaps > old(h.mishaps) ==> Mapper(v) in h.held - Made(next);
      return;
    }
    AddMapper(next, Mapper(v));
    next := next.(mappers := next.mappers + [Mapper(v)]);
    ok := h.Create(Mount(v));
    if !ok {
      assert h.mishaps > old(h.mishaps) ==> Mount(v) in h.held - Made(next);
      return;
    }
    AddMount(next, Mount(v));
    next := next.(mounts := next.mounts + [Mount(v)]);
  }

  // ----- apply_plan -----

  /** Where a run of apply_plan ends; `left` says that a failed write had created its file. */
  datatype Stage = Applied | Refused | Headers | Allocate | CheckImage | Format | OpenMapper | MakeFileSystem
    | MountVault | Populate | CreateVolume | Verify | WriteReceipt(left: bool) | WriteConsumed(left: bool)

  /** The failures after the run has begun to change the host. */
  predicate Started(stage: Stage) { stage != Applied && stage != Refused && stage != Headers }

  predicate InLoop(stage: Stage) {
    Started(stage) && stage != Verify && !stage.WriteReceipt? && !stage.WriteConsumed?
  }

  predicate Fresh(held: set<Resource>) { held == {} }

  /** What is left although no command misreported: the image that was allocated but not yet
      recorded when its check failed. */
  function Unrecorded(stage: Stage, v: Vault): set<Resource> { if stage == CheckImage then {Image(v)} else {} }

  /** Everything a vault ends up with. */
  function Whole(v: Vault): set<Resource> { {Image(v), Mapper(v), Mount(v), Volume(v)} }

  /** One turn of the loop of apply_plan. */
  method ApplyOne(h: Host, v: Vault, done: Done) returns (stage: Stage, next: Done)
    requires Sorted(done) && Made(done) == h.held && Whole(v) !! h.held
    modifies h`held, h`mishaps
    ensures Sorted(next) && h.mishaps >= old(h.mishaps) && Made(next) <= h.held
    ensures stage == Applied || InLoop(stage)
    ensures stage == Applied ==> h.mishaps == old(h.mishaps) && h.held == old(h.held) + Whole(v) && Made(next) == h.held
    ensures stage != Applied ==> (h.mishaps == old(h.mishaps) <==> h.held - Made(next) == Unrecorded(stage, v))
    ensures Unrecorded(stage, v) <= h.held - Made(next)
  {
    hide Sorted, Made;
    next := done;
    var ok := h.Create(Image(v));
    if !ok {
      assert h.mishaps > old(h.mishaps) ==> Image(v) in h.held - Made(next);
      return Allocate, next;
    }
    ok := h.Look();
    if !ok {
      assert h.held - Made(next) == {Image(v)};
      return CheckImage, next;
    }
    AddImage(next, Image(v));
    next := next.(images := next.images + [Image(v)]);
    stage, next := ApplyOpen(h, v, next);
    if stage == Applied { stage, next := ApplyMount(h, v, next); }
  }

  method ApplyOpen(h: Host, v: Vault, done: Done) returns (stage: Stage, next: Done)
    requires Sorted(done) && Made(done) == h.held && Mapper(v) !in h.held
    modifies h`held, h`mishaps
    ensures Sorted(next) && h.mishaps >= old(h.mishaps) && Made(next) <= h.held
    ensures stage == Applied || (InLoop(stage) && stage != CheckImage)
    ensures stage == Applied ==>
      h.mishaps == old(h.mishaps) && h.held == old(h.held) + {Mapper(v)} && Made(next) == h.held
    ensures next.mounts == done.mounts && next.volumes == done.volumes
    ensures stage != Applied ==> (h.mishaps == old(h.mishaps) <==> h.held - Made(next) == {})
  {
    hide Sorted, Made;
    next := done;
    var ok := h.Look();
    if !ok { return Format, next; }
    ok := h.Create(Mapper(v));
    if !ok {
      assert h.mishaps > old(h.mishaps) ==> Mapper(v) in h.held - Made(next);
      return OpenMapper, next;
    }
    AddMapper(next, Mapper(v));
    next := next.(mappers := next.mappers + [Mapper(v)]);
    ok := h.Look();
    return if ok then Applied else MakeFileSystem, next;
  }

  method ApplyMount(h: Host, v: Vault, done: Done) returns (stage: Stage, next: Done)
    requires Sorted(done) && Made(done) == h.held && Mount(v) !in h.held && Volume(v) !in h.held
    modifies h`held, h`mishaps
    ensures Sorted(next) && h.mishaps >= old(h.mishaps) && Made(next) <= h.held
    ensures stage == Applied || (InLoop(stage) && stage != CheckImage)
    ensures stage == Applied ==>
      h.mishaps == old(h.mishaps) && h.held == old(h.held) + {Mount(v), Volume(v)} && Made(next) == h.held
    ensures stage != Applied ==> (h.mishaps == old(h.mishaps) <==> h.held - Made(next) == {})
  {
    hide Sorted, Made;
    next := done;
    var ok := h.Create(Mount(v));
    if !ok {
      assert h.mishaps > old(h.mishaps) ==> Mount(v) in h.held - Made(next);
      return MountVault, next;
    }
    AddMount(next, Mount(v));
    next := next.(mounts := next.mounts + [Mount(v)]);
    ok := h.Look();
    if !ok { return Populate, next; }
    ok := h.Create(Volume(v));
    if !ok {
      assert h.mishaps > old(h.mishaps) ==> Volume(v) in h.held - Made(next);
      return CreateVolume, next;
    }
    AddVolume(next, Volume(v));
    next := next.(volumes := next.volumes + [Volume(v)]);
    return Applied, next;
  }

  /** The undo after a failure, when `left` is what should remain. */
  method Abandon(h: Host, done: Done, ghost left: set<Resource>, ghost before: nat)
    requires Sorted(done) && Made(done) <= h.held && h.mishaps >= before && left <= h.held - Made(done)
    requires h.mishaps == before <==> h.held - Made(done) == left
    modifies h`held, h`mishaps
    ensures h.held == left <==> h.mishaps == before
  {
    hide Sorted, Made;
    UndoAll(h, done);
  }

  /** apply_plan after its plan and window checks. */
  method ApplyPlan(h: Host) returns (stage: Stage, failing: Vault)
    modifies h
    // On success every vault has all four resources, and plan and receipt are written.
    ensures stage == Applied ==> (forall v :: Whole(v) <= h.held) && h.receipt && h.consumed && h.headers
    // A consumed plan, a host that is not fresh or headers left by an earlier run: nothing is touched.
    ensures old(h.consumed || !Fresh(h.held)) ==> stage == Refused
    ensures old(h.headers) ==> stage == Refused || stage == Headers
    ensures stage == Refused || stage == Headers ==> h.held == old(h.held) && h.headers == old(h.headers)
    // After a failure the host is fresh again exactly when every command did what it reported and
    // the failure was not the check of an image just allocated.
    ensures Started(stage) ==> (h.held == Unrecorded(stage, failing) <==> h.mishaps == old(h.mishaps))
    // What a failed run leaves behind all the same: the header directory always; the receipt when
    // only the last write failed or the receipt's own write failed on a created file; the mark of a
    // consumed plan, which refuses every later run of it, when its write failed on a created file.
    ensures Started(stage) ==> h.headers
    ensures h.receipt <==> old(h.receipt) || stage == Applied || stage.WriteConsumed? || stage == WriteReceipt(true)
    ensures h.consumed <==> old(h.consumed) || stage == Applied || stage == WriteConsumed(true)
    // A receipt that is already there fails every run that gets as far as writing its own, and stays.
    ensures old(h.receipt) ==> stage != Applied && !stage.WriteConsumed? && stage != WriteReceipt(true)
  {
    failing := AssetVault;
    if h.consumed || !Fresh(h.held) { return Refused, failing; }
    var ok := h.Look();
    if !ok || h.headers { return Headers, failing; }
    h.headers := true;
    var done;
    stage, failing, done := ApplyAll(h);
    hide Sorted, Made;
    if stage != Applied {
      Abandon(h, done, Unrecorded(stage, failing), old(h.mishaps));
      return;
    }
    stage := Finish(h);
    if stage != Applied { Abandon(h, done, {}, old(h.mishaps)); }
  }

  /** The loop over the vaults. */
  method ApplyAll(h: Host) returns (stage: Stage, failing: Vault, done: Done)
    requires h.held == {}
    modifies h`held, h`mishaps
    ensures Sorted(done) && h.mishaps >= old(h.mishaps) && Made(done) <= h.held
    ensures stage == Applied || InLoop(stage)
    ensures stage == Applied ==> h.mishaps == old(h.mishaps) && Made(done) == h.held && forall v :: Whole(v) <= h.held
    ensures stage != Applied ==> (h.mishaps == old(h.mishaps) <==> h.held - Made(done) == Unrecorded(stage, failing))
    ensures stage != Applied ==> Unrecorded(stage, failing) <= h.held - Made(done)
  {
    failing, done, stage := AssetVault, NOTHING, Applied;
    var n := 0;
    assert Made(done) == {} && Sorted(done);
    hide Sorted, Made, Whole, Unrecorded, InLoop;
    while n < |VAULTS|
      invariant 0 <= n <= |VAULTS| && h.mishaps == old(h.mishaps)
      invariant Sorted(done) && h.held == Made(done) && stage == Applied
      invariant forall r :: r in h.held <==> r.vault in VAULTS[..n]
    {
      failing := VAULTS[n];
      assert VAULTS[..n + 1] == VAULTS[..n] + [failing] && failing !in VAULTS[..n];
      WholeMeans(failing);
      stage, done := ApplyOne(h, failing, done);
      if stage != Applied { return; }
      n := n + 1;
    }
    AllVaults();
    assert VAULTS[..n] == VAULTS;
    forall v ensures Whole(v) <= h.held { WholeMeans(v); }
  }

  lemma WholeMeans(v: Vault)
    ensures forall r :: r in Whole(v) <==> r.vault == v
  {
  }

  /** The last check and the two exclusive writes. */
  method Finish(h: Host) returns (stage: Stage)
    requires !h.consumed
    modifies h`receipt, h`consumed
    ensures stage == Applied || stage == Verify || stage.WriteReceipt? || stage.WriteConsumed?
    ensures h.receipt <==> old(h.receipt) || stage == Applied || stage.WriteConsumed? || stage == WriteReceipt(true)
    ensures h.consumed <==> stage == Applied || stage == WriteConsumed(true)
    ensures old(h.receipt) ==> stage == Verify || stage == WriteReceipt(false)
  {
    var ok := h.Look();
    if !ok { return Verify; }
    var before := h.receipt;
    ok, h.receipt := h.WriteExclusive(h.receipt);
    if !ok { return WriteReceipt(h.receipt && !before); }
    ok, h.consumed := h.WriteExclusive(h.consumed);
    return if ok then Applied else WriteConsumed(h.consumed);
  }
}
