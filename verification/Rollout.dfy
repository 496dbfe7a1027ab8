/**
 `apply` and `rollback_committed`: write-ahead intent, atomic rename over each
 target, identity-checked rollback. Outsiders may change any file between any two
 operations, any operation may fail, and the process may stop anywhere.
 */
module Rollout {
  import opened Basics
  import opened RolloutDisk
  import opened Traces

  /**
   The disk, the durable journal, the names outsiders have touched since preflight,
   what the renames of this run have replaced, and the last look at a target, as long
   as only outsiders have acted since. `script` holds what outsiders turn the disk
   into, one entry for each of the moments counted by `tick`. `faults` operations have
   failed, of `budget` that may in all; `gaveUp` is how many had failed when the run
   gave up installing and turned to rolling back.
   */
  datatype World = World(disk: Disk, journal: seq<Entry>, touched: set<Path>, replaced: set<Replacement>,
                         checked: Option<Seen>, script: seq<Disk>, tick: nat, faults: nat, budget: nat,
                         gaveUp: Option<nat>)
  {
    /** Nothing will interfere and nothing will fail. */
    predicate Calm() {
      |script| <= tick && faults == budget
    }

    /** What outsiders make of the disk now. */
    function Outside(): Disk {
      if tick < |script| && script[tick].Shaped() then script[tick] else disk
    }
  }

  /** A look at a target: the disk of that moment. */
  datatype Seen = Seen(path: Path, disk: Disk)

  /**
   A rename put another inode under `path`, where `was` had been. Its last check saw
   `checked` there, and outsiders changed the names in `window` between that check
   and the rename.
   */
  datatype Replacement = Replacement(path: Path, checked: Pin, was: Option<Pin>, window: set<Path>)

  /** What never changes during a run. */
  datatype Plan = Plan(targets: seq<Target>, candidate: Content)
  {
    ghost predicate Valid() {
      DistinctNames(targets)
    }
  }

  /** Two entries that describe the same backup and the same install. */
  predicate SameCustody(e: Entry, f: Entry) {
    e == f.(state := e.state)
  }

  /** The manifest in memory continues the durable journal; entry `k` is about target `k`. */
  ghost predicate Aligned(plan: Plan, journal: seq<Entry>, manifest: seq<Entry>) {
    && |journal| <= |manifest| <= |plan.targets|
    && (forall k :: 0 <= k < |manifest| ==> manifest[k].target == plan.targets[k])
    && (forall k :: 0 <= k < |journal| ==> SameCustody(journal[k], manifest[k]))
  }

  predicate Untouched(w: World, t: Target) {
    w.touched !! Custody(t)
  }

  predicate AtOriginal(w: World, t: Target) {
    PinOf(w.disk, t.path) == Some(t.original)
  }

  /** The target names the complete candidate, and a verified backup of the original stands beside it. */
  predicate InstalledWithBackup(w: World, plan: Plan, e: Entry) {
    InstalledMatches(w.disk, e, plan.candidate) && BackupOk(w.disk, e)
  }

  /** The backup inode took the target's name back: the original bytes, mode and owner. */
  predicate Restored(w: World, e: Entry) {
    && PinOf(w.disk, e.target.path) == Some(e.backup)
    && e.backup.file == e.target.original.file
  }

  /** What a crash may leave of one target that no outsider touched. */
  ghost predicate TargetSafe(w: World, plan: Plan, k: nat)
    requires k < |plan.targets|
  {
    Untouched(w, plan.targets[k]) ==>
      || AtOriginal(w, plan.targets[k])
      || (k < |w.journal| && w.journal[k].target == plan.targets[k]
          && (InstalledWithBackup(w, plan, w.journal[k]) || Restored(w, w.journal[k])))
  }

  ghost predicate Safe(w: World, plan: Plan) {
    && w.disk.Shaped() && Aligned(plan, w.journal, w.journal) && w.faults <= w.budget
    && (forall k :: 0 <= k < |plan.targets| ==> TargetSafe(w, plan, k))
  }

  // ---- A run, step by step --------------------------------------------------------

  /** One operation, or one interference, from `a` to `b`. */
  ghost predicate WorldStep(a: World, b: World, plan: Plan) {
    || Interferes(a, b)
    || Journals(a, b, plan)
    || (exists k :: 0 <= k < |plan.targets| && Creates(a, b, plan.targets[k]))
    || (exists k :: 0 <= k < |plan.targets| && Checks(a, b, plan.targets[k]))
    || (exists k :: 0 <= k < |plan.targets| && Renames(a, b, plan, k))
    || GivesUp(a, b)
  }

  /** The journal is written, or an operation fails without effect. */
  ghost predicate Journals(a: World, b: World, plan: Plan) {
    && b == a.(journal := b.journal, faults := b.faults, checked := None) && a.faults <= b.faults
    && (b.journal == a.journal || Aligned(plan, a.journal, b.journal))
  }

  /** While installing, a new file appears under the backup's or the stage's name. */
  predicate Creates(a: World, b: World, t: Target) {
    && a.gaveUp.None? && a.faults <= b.faults && b == a.(disk := b.disk, faults := b.faults, checked := None)
    && a.disk.next in b.disk.files
    && exists p :: p in {t.backup, t.stage} && p !in a.disk.names
                   && b.disk == Created(a.disk, p, b.disk.files[a.disk.next])
  }

  /** The target is looked at. */
  predicate Checks(a: World, b: World, t: Target) {
    b == a.(checked := Some(Seen(t.path, a.disk)))
  }

  /** While installing a target should be the original; while rolling back, what this run installed. */
  predicate Expected(pin: Pin, w: World, plan: Plan, k: nat)
    requires k < |plan.targets|
  {
    if w.gaveUp.None? then pin == plan.targets[k].original else k < |w.journal| && pin == w.journal[k].install
  }

  /** The target was looked at and was as expected, and only outsiders have acted since. */
  predicate LookedAt(w: World, plan: Plan, k: nat)
    requires k < |plan.targets|
  {
    var path := plan.targets[k].path;
    && w.checked.Some? && w.checked.value.path == path
    && PinOf(w.checked.value.disk, path).Some? && Expected(PinOf(w.checked.value.disk, path).value, w, plan, k)
  }

  /** What the record of a rename on `w` says. */
  function ReplacementAt(w: World, path: Path): Replacement
    requires w.checked.Some? && PinOf(w.checked.value.disk, path).Some?
  {
    var seen := w.checked.value.disk;
    Replacement(path, PinOf(seen, path).value, PinOf(w.disk, path), Changed(seen, w.disk))
  }

  /**
   The stage, while installing, or the backup, while rolling back, is renamed over a
   target that was looked at, and what it replaces is recorded.
   */
  ghost predicate Renames(a: World, b: World, plan: Plan, k: nat)
    requires k < |plan.targets|
  {
    var t := plan.targets[k];
    var src := if a.gaveUp.None? then t.stage else t.backup;
    && src in a.disk.names && a.faults <= b.faults && LookedAt(a, plan, k)
    && b == a.(disk := Renamed(a.disk, src, t.path), replaced := a.replaced + {ReplacementAt(a, t.path)},
               faults := b.faults, checked := None)
  }

  /** The failure is noticed: from now on the run rolls back. */
  predicate GivesUp(a: World, b: World) {
    a.gaveUp.None? && b == a.(gaveUp := Some(a.faults), checked := None)
  }

  /** Time passes: outsiders and the machine stay as given, and nothing is forgotten. */
  predicate Onward(w: World, v: World) {
    && v.script == w.script && w.tick <= v.tick && v.budget == w.budget && w.faults <= v.faults
    && w.touched <= v.touched && v.gaveUp == w.gaveUp
  }

  ghost function StepOf(plan: Plan): (World, World) -> bool {
    (a: World, b: World) => WorldStep(a, b, plan)
  }

  ghost function SafeOf(plan: Plan): World -> bool {
    (w: World) => Safe(w, plan)
  }

  /** The run so far: single steps that end in `w`, safe all along. */
  ghost predicate Traced(trail: seq<World>, w: World, plan: Plan) {
    Trace(StepOf(plan), SafeOf(plan), trail, w)
  }

  lemma TraceOn(trail: seq<World>, w: World, v: World, plan: Plan)
    requires Traced(trail, w, plan) && WorldStep(w, v, plan) && Safe(v, plan)
    ensures Traced(trail + [v], v, plan) && trail <= trail + [v]
  {
    TraceGrows(StepOf(plan), SafeOf(plan), trail, w, v);
  }

  // ---- What keeps a world safe ------------------------------------------------

  /** Outsiders account for every name whose pin changed. */
  ghost predicate Accounted(w: World, v: World) {
    && w.touched <= v.touched
    && (forall p :: p !in v.touched ==> PinOf(v.disk, p) == PinOf(w.disk, p))
  }

  lemma InterferenceKeepsSafe(w: World, v: World, plan: Plan)
    requires Safe(w, plan) && Accounted(w, v) && v.journal == w.journal && v.disk.Shaped() && v.faults <= v.budget
    ensures Safe(v, plan)
  {
    forall k | 0 <= k < |plan.targets| ensures TargetSafe(v, plan, k) {
      assert TargetSafe(w, plan, k);
      var t := plan.targets[k];
      if Untouched(v, t) {
        assert t.path !in v.touched && t.backup !in v.touched;
      }
    }
  }

  lemma JournalKeepsSafe(w: World, plan: Plan, manifest: seq<Entry>)
    requires Safe(w, plan) && Aligned(plan, w.journal, manifest)
    ensures Safe(w.(journal := manifest), plan)
  {
    var v := w.(journal := manifest);
    forall k | 0 <= k < |plan.targets| ensures TargetSafe(v, plan, k) {
      assert TargetSafe(w, plan, k);
    }
  }

  /** A change confined to the names of target `k` keeps the others safe. */
  lemma LocalChangeKeepsSafe(w: World, v: World, plan: Plan, k: nat)
    requires plan.Valid() && Safe(w, plan) && k < |plan.targets| && v.disk.Shaped()
    requires v.journal == w.journal && v.touched == w.touched && v.faults <= v.budget
    requires forall p :: p !in Custody(plan.targets[k]) ==> PinOf(v.disk, p) == PinOf(w.disk, p)
    requires TargetSafe(v, plan, k)
    ensures Safe(v, plan)
  {
    forall j | 0 <= j < |plan.targets| ensures TargetSafe(v, plan, j) {
      assert TargetSafe(w, plan, j);
      if j != k {
        var t, u := plan.targets[j], plan.targets[k];
        assert t.path !in Custody(u) && t.backup !in Custody(u);
      }
    }
  }

  lemma CreatedPins(d: Disk, p: Path, f: File)
    requires d.Shaped()
    ensures Created(d, p, f).Shaped() && PinOf(Created(d, p, f), p) == Some(Pin(d.next, f))
    ensures forall q :: q != p ==> PinOf(Created(d, p, f), q) == PinOf(d, q)
  {
  }

  lemma RenamedPins(d: Disk, src: Path, dst: Path)
    requires d.Shaped() && src in d.names && src != dst
    ensures Renamed(d, src, dst).Shaped() && PinOf(Renamed(d, src, dst), dst) == PinOf(d, src)
    ensures forall q :: q != src && q != dst ==> PinOf(Renamed(d, src, dst), q) == PinOf(d, q)
  {
  }

  // ---- The operations ------------------------------------------------------------

  /** The names that mean another file on `e` than on `d`. */
  function Changed(d: Disk, e: Disk): (r: set<Path>)
    ensures forall p :: p in r <==> PinOf(d, p) != PinOf(e, p)
  {
    set p | p in d.names.Keys + e.names.Keys && PinOf(d, p) != PinOf(e, p)
  }

  /** Outsiders had their turn, and every name they changed is accounted for. */
  predicate Interferes(w: World, v: World) {
    v == w.(disk := w.Outside(), touched := w.touched + Changed(w.disk, w.Outside()), tick := w.tick + 1)
  }

  method Interfere(w: World, ghost plan: Plan, ghost trail: seq<World>) returns (v: World, ghost trail': seq<World>)
    requires Safe(w, plan) && Traced(trail, w, plan)
    ensures Safe(v, plan) && Traced(trail', v, plan) && trail <= trail' && |trail| < |trail'|
    ensures Interferes(w, v) && Onward(w, v) && Accounted(w, v)
    ensures w.Calm() ==> v == w.(tick := v.tick)
  {
    v := w.(disk := w.Outside(), touched := w.touched + Changed(w.disk, w.Outside()), tick := w.tick + 1);
    assert w.touched + Changed(w.disk, w.disk) == w.touched;
    InterferenceKeepsSafe(w, v, plan);
    TraceOn(trail, w, v, plan);
    trail' := trail + [v];
  }

  /** Look at target `k`. */
  method LookAt(w: World, plan: Plan, k: nat, ghost trail: seq<World>) returns (v: World, ghost trail': seq<World>)
    requires Safe(w, plan) && Traced(trail, w, plan) && k < |plan.targets|
    ensures Safe(v, plan) && Traced(trail', v, plan) && trail <= trail' && Checks(w, v, plan.targets[k])
  {
    v := w.(checked := Some(Seen(plan.targets[k].path, w.disk)));
    InterferenceKeepsSafe(w, v, plan);
    TraceOn(trail, w, v, plan);
    trail' := trail + [v];
  }

  /** An operation that may fail without changing anything, while the budget lasts. */
  method Probe(w: World) returns (v: World, ok: bool)
    requires w.faults <= w.budget
    ensures v == w.(faults := v.faults) && (if ok then v == w else w.faults < v.faults <= w.budget)
  {
    if w.faults == w.budget { return w, true; }
    if * { return w.(faults := w.faults + 1), false; }
    return w, true;
  }

  /** A check that may fail. */
  method Check(w: World, ghost plan: Plan, ghost trail: seq<World>)
    returns (v: World, ok: bool, ghost trail': seq<World>)
    requires Safe(w, plan) && Traced(trail, w, plan)
    ensures Safe(v, plan) && Traced(trail', v, plan) && trail <= trail'
    ensures v == w.(faults := v.faults, checked := None) && (if ok then v.faults == w.faults else w.faults < v.faults)
  {
    v, ok := Probe(w);
    v := v.(checked := None);
    InterferenceKeepsSafe(w, v, plan);
    TraceOn(trail, w, v, plan);
    trail' := trail + [v];
  }

  /** A verification of things outside the model: it may find a discrepancy, or fail. */
  method Verify(w: World, ghost plan: Plan, ghost trail: seq<World>)
    returns (v: World, ok: bool, ghost trail': seq<World>)
    requires Safe(w, plan) && Traced(trail, w, plan)
    ensures Safe(v, plan) && Traced(trail', v, plan) && trail <= trail'
    ensures v == w.(faults := v.faults, checked := None) && w.faults <= v.faults && (w.Calm() ==> ok)
    ensures ok ==> v.faults == w.faults
  {
    v, ok, trail' := Check(w, plan, trail);
    if ok && !w.Calm() { ok := *; }
  }

  /** `durable_write_json`: the journal stays as it was, or becomes `manifest` whether or not the call succeeds. */
  method WriteJournal(w: World, plan: Plan, manifest: seq<Entry>, ghost trail: seq<World>)
    returns (v: World, ok: bool, ghost trail': seq<World>)
    requires Safe(w, plan) && Traced(trail, w, plan) && Aligned(plan, w.journal, manifest)
    ensures Safe(v, plan) && Traced(trail', v, plan) && trail <= trail'
    ensures v == w.(journal := v.journal, faults := v.faults, checked := None) && Aligned(plan, v.journal, manifest)
    ensures if ok then v.journal == manifest && v.faults == w.faults else w.faults < v.faults
  {
    v, ok := Probe(w);
    v := v.(checked := None);
    InterferenceKeepsSafe(w, v, plan);
    JournalKeepsSafe(v, plan, manifest);
    if ok {
      v := v.(journal := manifest);
    } else if * {
      v := v.(journal := manifest);
    }
    TraceOn(trail, w, v, plan);
    trail' := trail + [v];
  }

  /**
   `make_file_same_dir` and `copy_verified`: on success `p` is a new file with exactly
   the wanted bytes, read from a source that still had them; on failure `p` may hold
   anything, under the same name.
   */
  method CreateVerified(w: World, plan: Plan, k: nat, p: Path, f: File, sourceOk: bool, ghost trail: seq<World>)
    returns (v: World, ok: bool, ghost trail': seq<World>)
    requires plan.Valid() && Safe(w, plan) && Traced(trail, w, plan) && |w.journal| <= k < |plan.targets|
    requires w.gaveUp.None?
    requires p == plan.targets[k].backup || p == plan.targets[k].stage
    ensures Safe(v, plan) && Traced(trail', v, plan) && trail <= trail'
    ensures v == w.(disk := v.disk, faults := v.faults, checked := None) && w.faults <= v.faults
    ensures ok ==> p !in w.disk.names && sourceOk && v.disk == Created(w.disk, p, f) && v.faults == w.faults
    ensures w.Calm() && p !in w.disk.names && sourceOk ==> ok
  {
    v, ok := Probe(w);
    v := v.(checked := None);
    if p in w.disk.names || !sourceOk { ok := false; }
    assert TargetSafe(w, plan, k);
    if ok {
      v := v.(disk := Created(w.disk, p, f));
      CreatedPins(w.disk, p, f);
    } else if p !in w.disk.names {
      var partial: File := *;
      v := v.(disk := Created(w.disk, p, partial));
      CreatedPins(w.disk, p, partial);
    }
    LocalChangeKeepsSafe(w, v, plan, k);
    assert v.disk == w.disk || Creates(w, v, plan.targets[k]);
    TraceOn(trail, w, v, plan);
    trail' := trail + [v];
  }

  /**
   `checked_rename`: it fails when the source is gone, and may fail before the rename
   or, in the directory sync, after it.
   */
  method CheckedRename(w: World, plan: Plan, k: nat, src: Path, ghost trail: seq<World>)
    returns (v: World, ok: bool, ghost trail': seq<World>)
    requires plan.Valid() && Safe(w, plan) && Traced(trail, w, plan) && k < |plan.targets| && LookedAt(w, plan, k)
    requires src == if w.gaveUp.None? then plan.targets[k].stage else plan.targets[k].backup
    requires src in w.disk.names ==> TargetSafe(w.(disk := Renamed(w.disk, src, plan.targets[k].path)), plan, k)
    ensures Safe(v, plan) && Traced(trail', v, plan) && trail <= trail'
    ensures v == w.(disk := v.disk, replaced := v.replaced, faults := v.faults, checked := None)
    ensures || (v.disk == w.disk && v.replaced == w.replaced)
            || (src in w.disk.names && v.disk == Renamed(w.disk, src, plan.targets[k].path)
                && v.replaced == w.replaced + {ReplacementAt(w, plan.targets[k].path)})
    ensures ok ==> src in w.disk.names && v.disk == Renamed(w.disk, src, plan.targets[k].path) && v.faults == w.faults
                   && ReplacementAt(w, plan.targets[k].path) in v.replaced
    ensures w.faults <= v.faults && (!ok && v.faults == w.faults ==> src !in w.disk.names && v.disk == w.disk)
  {
    var path := plan.targets[k].path;
    v, ok := Probe(w);
    v := v.(checked := None);
    if src !in w.disk.names { ok := false; }
    // A failed call may still have renamed.
    var renames := ok;
    if !ok && src in w.disk.names { renames := *; }
    if renames {
      ghost var renamed := w.(disk := Renamed(w.disk, src, path));
      RenamedPins(w.disk, src, path);
      LocalChangeKeepsSafe(w, renamed, plan, k);
      v := v.(disk := Renamed(w.disk, src, path), replaced := v.replaced + {ReplacementAt(w, path)});
      InterferenceKeepsSafe(renamed, v, plan);
      assert Renames(w, v, plan, k);
    } else {
      InterferenceKeepsSafe(w, v, plan);
    }
    TraceOn(trail, w, v, plan);
    trail' := trail + [v];
  }

  // ---- Apply -----------------------------------------------------------------------

  /** 0755. */
  const NEW_MODE := 493

  /** Names this run has already taken off the inode. */
  function OwnRemovals(committed: seq<Entry>, ino: Inode): nat {
    if committed == [] then 0
    else OwnRemovals(committed[..|committed| - 1], ino)
         + (if committed[|committed| - 1].target.original.ino == ino then 1 else 0)
  }

  /** `expected_links`. */
  function ExpectedLinks(t: Target, committed: seq<Entry>): int {
    t.links - OwnRemovals(committed, t.original.ino)
  }

  /** Backup and stage of target `k`, each an exclusive new file; the entry pins what they are afterwards. */
  method Stage(w: World, plan: Plan, k: nat, ghost trail: seq<World>)
    returns (v: World, r: Option<Entry>, ghost trail': seq<World>)
    requires plan.Valid() && Safe(w, plan) && Traced(trail, w, plan) && |w.journal| <= k < |plan.targets|
    requires w.gaveUp.None?
    ensures Safe(v, plan) && Traced(trail', v, plan) && trail <= trail'
    ensures v == w.(disk := v.disk, touched := v.touched, faults := v.faults, tick := v.tick, checked := v.checked)
    ensures Onward(w, v)
    ensures r.Some? ==> r.value.target == plan.targets[k] && v.faults == w.faults
    ensures r.Some? && Untouched(v, plan.targets[k]) ==>
              BackupOk(v.disk, r.value) && PinOf(v.disk, plan.targets[k].stage) == Some(r.value.install)
              && r.value.install.file.content == plan.candidate
    ensures w.Calm() ==> (r.Some? <==> AtOriginal(w, plan.targets[k]) && plan.targets[k].backup !in w.disk.names
                                       && plan.targets[k].stage !in w.disk.names)
    ensures w.Calm() && r.Some? ==>
              v.disk == Staged(w.disk, plan.targets[k], plan.candidate) && v.touched == w.touched
              && r.value.install == Pin(w.disk.next + 1, StageFile(plan.targets[k], plan.candidate))
              && r.value.backup == Pin(w.disk.next, plan.targets[k].original.file)
  {
    var t := plan.targets[k];
    var ok;
    v, ok, trail' := StageBackup(w, plan, k, trail);
    if !ok { return v, None, trail'; }
    CreatedPins(w.disk, t.backup, t.original.file);
    v, ok, trail' := StageCandidate(v, plan, k, trail');
    if !ok || PinOf(v.disk, t.backup).None? { return v, None, trail'; }
    r := Some(Entry(t, PinOf(v.disk, t.backup).value, PinOf(v.disk, t.stage).value, Intended));
  }

  /** Copy the candidate under the stage's name, then pin what is there. */
  method StageCandidate(w: World, plan: Plan, k: nat, ghost trail: seq<World>)
    returns (v: World, ok: bool, ghost trail': seq<World>)
    requires plan.Valid() && Safe(w, plan) && Traced(trail, w, plan) && |w.journal| <= k < |plan.targets|
    requires w.gaveUp.None?
    ensures Safe(v, plan) && Traced(trail', v, plan) && trail <= trail'
    ensures v == w.(disk := v.disk, touched := v.touched, faults := v.faults, tick := v.tick, checked := v.checked)
    ensures Onward(w, v)
    ensures ok ==> PinOf(v.disk, plan.targets[k].stage).Some? && v.faults == w.faults
    ensures ok && Untouched(v, plan.targets[k]) ==>
              && PinOf(v.disk, plan.targets[k].stage).value.file.content == plan.candidate
              && PinOf(v.disk, plan.targets[k].backup) == PinOf(w.disk, plan.targets[k].backup)
    ensures w.Calm() ==> (ok <==> plan.targets[k].stage !in w.disk.names)
    ensures w.Calm() && ok ==>
              v.touched == w.touched
              && v.disk == Created(w.disk, plan.targets[k].stage, StageFile(plan.targets[k], plan.candidate))
  {
    var t := plan.targets[k];
    v, trail' := Interfere(w, plan, trail);
    CreatedPins(v.disk, t.stage, StageFile(t, plan.candidate));
    v, ok, trail' := CreateVerified(v, plan, k, t.stage, StageFile(t, plan.candidate), true, trail');
    if !ok { return; }
    v, trail' := Interfere(v, plan, trail');
    ok := PinOf(v.disk, t.stage).Some?;
  }

  /** The target is still the original: copy it under the backup's name. */
  method StageBackup(w: World, plan: Plan, k: nat, ghost trail: seq<World>)
    returns (v: World, ok: bool, ghost trail': seq<World>)
    requires plan.Valid() && Safe(w, plan) && Traced(trail, w, plan) && |w.journal| <= k < |plan.targets|
    requires w.gaveUp.None?
    ensures Safe(v, plan) && Traced(trail', v, plan) && trail <= trail'
    ensures v == w.(disk := v.disk, touched := v.touched, faults := v.faults, tick := v.tick, checked := v.checked)
    ensures Onward(w, v)
    ensures ok ==> PinOf(v.disk, plan.targets[k].backup).Some?
                   && PinOf(v.disk, plan.targets[k].backup).value.file == plan.targets[k].original.file
    ensures ok ==> v.faults == w.faults && exists i ::
              && |trail| <= i < |trail'| && PinOf(trail'[i].disk, plan.targets[k].path).Some?
              && PinOf(trail'[i].disk, plan.targets[k].path).value.file.content == plan.targets[k].original.file.content
    ensures w.Calm() ==> (ok <==> AtOriginal(w, plan.targets[k]) && plan.targets[k].backup !in w.disk.names)
    ensures w.Calm() && ok ==>
              v.touched == w.touched
              && v.disk == Created(w.disk, plan.targets[k].backup, plan.targets[k].original.file)
  {
    var t := plan.targets[k];
    v, trail' := Interfere(w, plan, trail);
    if PinOf(v.disk, t.path) != Some(t.original) { return v, false, trail'; }
    v, trail' := Interfere(v, plan, trail');
    ghost var past := |trail'| - 1;
    var sourceOk := SourceOk(v.disk, t);
    CreatedPins(v.disk, t.backup, t.original.file);
    v, ok, trail' := CreateVerified(v, plan, k, t.backup, t.original.file, sourceOk, trail');
    assert ok ==> SourceOk(trail'[past].disk, t);
  }

  /** What is copied has the bytes that preflight saw. */
  predicate SourceOk(d: Disk, t: Target) {
    PinOf(d, t.path).Some? && PinOf(d, t.path).value.file.content == t.original.file.content
  }

  function StageFile(t: Target, candidate: Content): File {
    File(NEW_MODE, t.original.file.owner, candidate)
  }

  function Staged(d: Disk, t: Target, candidate: Content): Disk {
    Created(Created(d, t.backup, t.original.file), t.stage, StageFile(t, candidate))
  }

  /** Everything the last check before the rename looks at: the stage and backup first, the target last. */
  predicate ReadyToInstall(d: Disk, e: Entry, links: int) {
    CustodyReady(d, e) && TargetReady(d, e, links)
  }

  predicate CustodyReady(d: Disk, e: Entry) {
    PinOf(d, e.target.stage) == Some(e.install) && BackupOk(d, e)
  }

  predicate TargetReady(d: Disk, e: Entry, links: int) {
    Links(d, e.target.original.ino) == links && PinOf(d, e.target.path) == Some(e.target.original)
  }

  /** The entry is durable: check once more, then rename the stage over the target. Outsiders act in between. */
  method CheckAndRename(w: World, plan: Plan, k: nat, manifest: seq<Entry>, links: int, ghost trail: seq<World>)
    returns (v: World, ok: bool, ghost trail': seq<World>)
    requires plan.Valid() && Safe(w, plan) && Traced(trail, w, plan)
    requires w.gaveUp.None?
    requires k + 1 == |manifest| && w.journal == manifest && manifest[k].target == plan.targets[k]
    requires Untouched(w, plan.targets[k]) ==> manifest[k].install.file.content == plan.candidate
    ensures Safe(v, plan) && Traced(trail', v, plan) && trail <= trail'
    ensures v.journal == w.journal && Onward(w, v) && (ok ==> v.faults == w.faults)
    ensures ok && Untouched(v, plan.targets[k]) ==> PinOf(v.disk, plan.targets[k].path) == Some(manifest[k].install)
    ensures ok ==> (exists i :: |trail| <= i + 1 && i < |trail'| && CustodyReady(trail'[i].disk, manifest[k]))
    ensures ok ==> exists i :: |trail| <= i < |trail'| && LookSaw(trail'[i], plan.targets[k], links)
    ensures w.Calm() ==> (ok <==> ReadyToInstall(w.disk, manifest[k], links))
    ensures w.Calm() && ok ==>
              v.touched == w.touched && v.disk == Renamed(w.disk, plan.targets[k].stage, plan.targets[k].path)
  {
    var e := manifest[k];
    v, trail', ok := w, trail, CustodyReady(w.disk, e);
    if !ok { return; }
    ghost var checked := |trail| - 1;
    v, trail' := Interfere(w, plan, trail');
    v, trail' := LookAt(v, plan, k, trail');
    ok := TargetReady(v.disk, e, links);
    if !ok { return; }
    ghost var look, past := |trail'| - 1, trail';
    v, ok, trail' := RenameStage(v, plan, k, manifest, trail');
    assert trail'[checked] == trail[checked] && CustodyReady(trail'[checked].disk, e);
    assert trail'[look] == past[look] && LookSaw(trail'[look], plan.targets[k], links);
  }

  /** The look at `t` that is the last thing in `w` saw the original, with this many links. */
  predicate LookSaw(w: World, t: Target, links: int) {
    && w.checked == Some(Seen(t.path, w.disk)) && PinOf(w.disk, t.path) == Some(t.original)
    && Links(w.disk, t.original.ino) == links
  }

  /** The target passed its check on `w`, the stage and the backup theirs before. */
  method RenameStage(w: World, plan: Plan, k: nat, manifest: seq<Entry>, ghost trail: seq<World>)
    returns (v: World, ok: bool, ghost trail': seq<World>)
    requires plan.Valid() && Safe(w, plan) && Traced(trail, w, plan)
    requires w.gaveUp.None?
    requires k + 1 == |manifest| && w.journal == manifest
    requires Untouched(w, plan.targets[k]) ==>
               manifest[k].install.file.content == plan.candidate && CustodyReady(w.disk, manifest[k])
    requires w.checked == Some(Seen(plan.targets[k].path, w.disk)) && AtOriginal(w, plan.targets[k])
    ensures Safe(v, plan) && Traced(trail', v, plan) && trail <= trail'
    ensures v.journal == w.journal && Onward(w, v) && (ok ==> v.faults == w.faults)
    ensures ok && Untouched(v, plan.targets[k]) ==> PinOf(v.disk, plan.targets[k].path) == Some(manifest[k].install)
    ensures w.Calm() && CustodyReady(w.disk, manifest[k]) ==>
              ok && v.touched == w.touched
              && v.disk == Renamed(w.disk, plan.targets[k].stage, plan.targets[k].path)
  {
    var e := manifest[k];
    var u;
    u, trail' := Interfere(w, plan, trail);
    if e.target.stage in u.disk.names { RenamedPins(u.disk, e.target.stage, e.target.path); }
    v, ok, trail' := CheckedRename(u, plan, k, e.target.stage, trail');
  }

  /** Journal the intent, install, journal the outcome, and verify it. */
  method Install(w: World, plan: Plan, k: nat, before: seq<Entry>, e: Entry, ghost trail: seq<World>)
    returns (v: World, manifest: seq<Entry>, ok: bool, ghost trail': seq<World>)
    requires plan.Valid() && Safe(w, plan) && Traced(trail, w, plan)
    requires w.gaveUp.None?
    requires k == |before| < |plan.targets| && w.journal == before
    requires e.target == plan.targets[k] && (Untouched(w, plan.targets[k]) ==> e.install.file.content == plan.candidate)
    ensures Safe(v, plan) && Traced(trail', v, plan) && trail <= trail'
    ensures Aligned(plan, v.journal, manifest) && |manifest| == k + 1 && SameCustody(manifest[k], e)
    ensures manifest[..k] == before && Onward(w, v) && (ok ==> manifest[k].state == Installed && v.faults == w.faults)
    ensures ok ==> v.journal == manifest && InstalledMatches(v.disk, manifest[k], plan.candidate)
    ensures ok ==> exists i :: |trail| <= i < |trail'| && LookSaw(trail'[i], e.target, ExpectedLinks(e.target, before))
    ensures w.Calm() ==> (ok <==> ReadyToInstall(w.disk, e, ExpectedLinks(e.target, before))
                                  && e.install.file.content == plan.candidate)
    ensures w.Calm() && ok ==> v.touched == w.touched && v.disk == Renamed(w.disk, e.target.stage, e.target.path)
  {
    manifest := before + [e];
    v, ok, trail' := IntendAndRename(w, plan, k, before, e, trail);
    if !ok { return; }
    ghost var past := trail';
    ghost var look :| |trail| <= look < |past| && LookSaw(past[look], e.target, ExpectedLinks(e.target, before));
    v, manifest, ok, trail' := Confirm(v, plan, k, before, e, trail');
    assert trail'[look] == past[look];
  }

  /** Journal the intent, check everything, rename. */
  method IntendAndRename(w: World, plan: Plan, k: nat, before: seq<Entry>, e: Entry, ghost trail: seq<World>)
    returns (v: World, ok: bool, ghost trail': seq<World>)
    requires plan.Valid() && Safe(w, plan) && Traced(trail, w, plan)
    requires w.gaveUp.None?
    requires k == |before| < |plan.targets| && w.journal == before
    requires e.target == plan.targets[k] && (Untouched(w, plan.targets[k]) ==> e.install.file.content == plan.candidate)
    ensures Safe(v, plan) && Traced(trail', v, plan) && trail <= trail' && Onward(w, v)
    ensures Aligned(plan, v.journal, before + [e]) && (ok ==> v.journal == before + [e] && v.faults == w.faults)
    ensures ok ==> exists i :: |trail| <= i < |trail'| && LookSaw(trail'[i], e.target, ExpectedLinks(e.target, before))
    ensures w.Calm() ==> (ok <==> ReadyToInstall(w.disk, e, ExpectedLinks(e.target, before)))
    ensures w.Calm() && ok ==> v.touched == w.touched && v.disk == Renamed(w.disk, e.target.stage, e.target.path)
  {
    v, ok, trail' := WriteJournal(w, plan, before + [e], trail);
    if !ok { return; }
    v, trail' := Interfere(v, plan, trail');
    v, ok, trail' := CheckAndRename(v, plan, k, before + [e], ExpectedLinks(e.target, before), trail');
  }

  /** The rename succeeded: journal it, verify the installed file, and journal that. */
  method Confirm(w: World, plan: Plan, k: nat, before: seq<Entry>, e: Entry, ghost trail: seq<World>)
    returns (v: World, manifest: seq<Entry>, ok: bool, ghost trail': seq<World>)
    requires plan.Valid() && Safe(w, plan) && Traced(trail, w, plan)
    requires w.gaveUp.None?
    requires k == |before| < |plan.targets| && w.journal == before + [e]
    requires e.target == plan.targets[k] && Aligned(plan, w.journal, before + [e])
    ensures Safe(v, plan) && Traced(trail', v, plan) && trail <= trail'
    ensures Aligned(plan, v.journal, manifest) && |manifest| == k + 1 && SameCustody(manifest[k], e)
    ensures manifest[..k] == before && Onward(w, v) && (ok ==> manifest[k].state == Installed && v.faults == w.faults)
    ensures ok ==> v.journal == manifest && InstalledMatches(v.disk, manifest[k], plan.candidate)
    ensures w.Calm() ==>
              v.disk == w.disk && v.touched == w.touched && (ok <==> InstalledMatches(w.disk, e, plan.candidate))
  {
    manifest := before + [e.(state := Committed)];
    v, ok, trail' := WriteJournal(w, plan, manifest, trail);
    if !ok { return; }
    v, trail' := Interfere(v, plan, trail');
    ok := InstalledMatches(v.disk, e, plan.candidate);
    if !ok { return; }
    manifest := before + [e.(state := Installed)];
    v, ok, trail' := WriteJournal(v, plan, manifest, trail');
  }

  // ---- Rollback --------------------------------------------------------------------

  /** The target names the original bytes again, or still. */
  ghost predicate Reverted(w: World, plan: Plan, k: nat, e: Entry)
    requires k < |plan.targets|
  {
    AtOriginal(w, plan.targets[k]) || Restored(w, e)
  }

  /** Check once more, then rename the backup over the target. Outsiders act in between. */
  method CheckAndRestore(w: World, plan: Plan, k: nat, manifest: seq<Entry>, ghost trail: seq<World>)
    returns (v: World, ok: bool, ghost trail': seq<World>)
    requires plan.Valid() && Safe(w, plan) && Traced(trail, w, plan)
    requires w.gaveUp.Some?
    requires k < |manifest| && w.journal == manifest
    ensures Safe(v, plan) && Traced(trail', v, plan) && trail <= trail'
    ensures v.journal == w.journal && Onward(w, v)
    ensures ok && Untouched(v, plan.targets[k]) ==> Restored(v, manifest[k])
    ensures !ok && v.faults == w.faults && Untouched(v, plan.targets[k]) ==>
              !(BackupOk(w.disk, manifest[k]) && InstalledMatches(w.disk, manifest[k], plan.candidate))
    ensures forall p :: p !in v.touched && p !in Custody(plan.targets[k]) ==> PinOf(v.disk, p) == PinOf(w.disk, p)
    ensures !ok && v.faults == w.faults ==> forall p :: p !in v.touched ==> PinOf(v.disk, p) == PinOf(w.disk, p)
    ensures ok ==> exists i :: |trail| <= i + 1 && i < |trail'| && BackupOk(trail'[i].disk, manifest[k])
  {
    var e := manifest[k];
    v, trail', ok := w, trail, BackupOk(w.disk, e);
    if !ok { return; }
    v, trail' := Interfere(w, plan, trail');
    v, trail' := LookAt(v, plan, k, trail');
    ok := InstalledMatches(v.disk, e, plan.candidate);
    if !ok { return; }
    v, ok, trail' := RenameBackup(v, plan, k, manifest, trail');
    ghost var checked := |trail| - 1;
    assert trail'[checked] == trail[checked] && BackupOk(trail'[checked].disk, e);
  }

  /** The target passed its check on `w`, the backup its own before. */
  method RenameBackup(w: World, plan: Plan, k: nat, manifest: seq<Entry>, ghost trail: seq<World>)
    returns (v: World, ok: bool, ghost trail': seq<World>)
    requires plan.Valid() && Safe(w, plan) && Traced(trail, w, plan)
    requires w.gaveUp.Some?
    requires k < |manifest| && w.journal == manifest
    requires w.checked == Some(Seen(plan.targets[k].path, w.disk))
    requires InstalledMatches(w.disk, manifest[k], plan.candidate)
    requires Untouched(w, plan.targets[k]) ==> BackupOk(w.disk, manifest[k])
    ensures Safe(v, plan) && Traced(trail', v, plan) && trail <= trail'
    ensures v.journal == w.journal && Onward(w, v)
    ensures !ok && v.faults == w.faults ==> !Untouched(v, plan.targets[k])
    ensures !ok && v.faults == w.faults ==> forall p :: p !in v.touched ==> PinOf(v.disk, p) == PinOf(w.disk, p)
    ensures ok && Untouched(v, plan.targets[k]) ==> Restored(v, manifest[k])
    ensures forall p :: p !in v.touched && p !in Custody(plan.targets[k]) ==> PinOf(v.disk, p) == PinOf(w.disk, p)
  {
    var e := manifest[k];
    var u;
    u, trail' := Interfere(w, plan, trail);
    if e.target.backup in u.disk.names { RenamedPins(u.disk, e.target.backup, e.target.path); }
    v, ok, trail' := CheckedRename(u, plan, k, e.target.backup, trail');
  }

  /** What rolling back one entry keeps, whether or not it succeeds. */
  ghost predicate RolledOne(w: World, v: World, plan: Plan, k: nat, before: seq<Entry>, manifest: seq<Entry>)
    requires k < |plan.targets|
  {
    && Aligned(plan, v.journal, manifest) && |manifest| == |before|
    && (forall j :: 0 <= j < |before| ==> SameCustody(manifest[j], before[j]))
    && (forall j :: 0 <= j < |before| && j != k ==> manifest[j] == before[j])
    && Onward(w, v)
    && (forall p :: p !in v.touched && p !in Custody(plan.targets[k]) ==> PinOf(v.disk, p) == PinOf(w.disk, p))
  }

  /** The state of an entry after its rollback says whether that was done, or what was left of it. */
  predicate StateTold(rolled: bool, before: EntryState, after: EntryState) {
    if rolled then after == RolledBack else after == before || after == RollbackIntended
  }

  /** The entry passed its first check: journal the intent, check again, restore, journal the outcome. */
  method RestoreEntry(w: World, plan: Plan, k: nat, before: seq<Entry>, ghost trail: seq<World>)
    returns (v: World, manifest: seq<Entry>, rolled: bool, ghost trail': seq<World>)
    requires plan.Valid() && Safe(w, plan) && Traced(trail, w, plan)
    requires w.gaveUp.Some?
    requires k < |before| && Aligned(plan, w.journal, before)
    requires BackupOk(w.disk, before[k]) && InstalledMatches(w.disk, before[k], plan.candidate)
    ensures Safe(v, plan) && Traced(trail', v, plan) && trail <= trail'
    ensures RolledOne(w, v, plan, k, before, manifest)
    ensures Untouched(v, plan.targets[k]) && v.faults == w.faults ==> Restored(v, before[k]) && rolled
    ensures rolled ==> WasRestored(trail', |trail|, manifest[k])
    ensures StateTold(rolled, before[k].state, manifest[k].state)
  {
    rolled := false;
    var ok;
    v, manifest, ok, trail' := IntendAndRestore(w, plan, k, before, trail);
    if !ok { return; }
    ghost var u, m, past := v, manifest, trail';
    v, manifest, rolled, trail' := ConfirmRestored(v, plan, k, manifest, trail');
    RolledTwice(w, u, v, plan, k, before, m, manifest);
    if rolled { RestoredSince(trail', |past|, |trail|, manifest[k]); }
  }

  /** Journal the intent, check again, restore. */
  method IntendAndRestore(w: World, plan: Plan, k: nat, before: seq<Entry>, ghost trail: seq<World>)
    returns (v: World, manifest: seq<Entry>, ok: bool, ghost trail': seq<World>)
    requires plan.Valid() && Safe(w, plan) && Traced(trail, w, plan)
    requires w.gaveUp.Some?
    requires k < |before| && Aligned(plan, w.journal, before)
    requires BackupOk(w.disk, before[k]) && InstalledMatches(w.disk, before[k], plan.candidate)
    ensures Safe(v, plan) && Traced(trail', v, plan) && trail <= trail'
    ensures RolledOne(w, v, plan, k, before, manifest)
    ensures Untouched(v, plan.targets[k]) && (ok || v.faults == w.faults) ==> Restored(v, before[k])
    ensures (ok ==> v.journal == manifest) && manifest[k].state == RollbackIntended
    ensures Untouched(v, plan.targets[k]) && v.faults == w.faults ==> ok
  {
    manifest := before[k := before[k].(state := RollbackIntended)];
    v, ok, trail' := WriteJournal(w, plan, manifest, trail);
    if !ok { return; }
    v, trail' := Interfere(v, plan, trail');
    v, ok, trail' := CheckAndRestore(v, plan, k, manifest, trail');
  }

  lemma RestoredSince(trail: seq<World>, late: nat, early: nat, e: Entry)
    requires WasRestored(trail, late, e) && early <= late
    ensures WasRestored(trail, early, e)
  {
  }

  /** The rename succeeded: see that the target names the backup, and journal it. */
  method ConfirmRestored(w: World, plan: Plan, k: nat, before: seq<Entry>, ghost trail: seq<World>)
    returns (v: World, manifest: seq<Entry>, rolled: bool, ghost trail': seq<World>)
    requires plan.Valid() && Safe(w, plan) && Traced(trail, w, plan)
    requires w.gaveUp.Some?
    requires k < |before| && w.journal == before && Aligned(plan, before, before)
    requires Untouched(w, plan.targets[k]) ==> Restored(w, before[k])
    ensures Safe(v, plan) && Traced(trail', v, plan) && trail <= trail'
    ensures RolledOne(w, v, plan, k, before, manifest)
    ensures Untouched(v, plan.targets[k]) ==> Restored(v, before[k]) && rolled
    ensures rolled ==> WasRestored(trail', |trail|, manifest[k])
    ensures StateTold(rolled, before[k].state, manifest[k].state)
  {
    rolled, manifest := false, before;
    v, trail' := Interfere(w, plan, trail);
    if PinOf(v.disk, before[k].target.path) != Some(before[k].backup) { return; }
    rolled := true;
    ghost var u, past := v, trail';
    v, manifest, trail' := JournalRestored(v, plan, k, before, trail');
    RolledTwice(w, u, v, plan, k, before, before, manifest);
    RestoredNow(past, u, plan, |trail|, manifest[k]);
    RestoredStill(past, trail', |trail|, manifest[k]);
  }

  /** Journal that the entry was rolled back; a failure to do so is not one of the rollback. */
  method JournalRestored(w: World, plan: Plan, k: nat, before: seq<Entry>, ghost trail: seq<World>)
    returns (v: World, manifest: seq<Entry>, ghost trail': seq<World>)
    requires plan.Valid() && Safe(w, plan) && Traced(trail, w, plan)
    requires k < |before| && Aligned(plan, w.journal, before)
    ensures Safe(v, plan) && Traced(trail', v, plan) && trail <= trail'
    ensures RolledOne(w, v, plan, k, before, manifest) && v.disk == w.disk && v.touched == w.touched
    ensures manifest[k].state == RolledBack
  {
    manifest := before[k := before[k].(state := RolledBack)];
    var ok;
    v, ok, trail' := WriteJournal(w, plan, manifest, trail);
  }

  lemma RestoredNow(trail: seq<World>, v: World, plan: Plan, from: nat, e: Entry)
    requires Traced(trail, v, plan) && from < |trail| && PinOf(v.disk, e.target.path) == Some(e.backup)
    ensures WasRestored(trail, from, e)
  {
    var i := |trail| - 1;
    assert PinOf(trail[i].disk, e.target.path) == Some(e.backup);
  }

  lemma RestoredStill(past: seq<World>, trail: seq<World>, from: nat, e: Entry)
    requires WasRestored(past, from, e) && past <= trail
    ensures WasRestored(trail, from, e)
  {
    var i :| from <= i < |past| && PinOf(past[i].disk, e.target.path) == Some(e.backup);
    assert trail[i] == past[i];
  }

  lemma RolledTwice(w: World, u: World, v: World, plan: Plan, k: nat, before: seq<Entry>, m: seq<Entry>,
                    manifest: seq<Entry>)
    requires k < |plan.targets| && RolledOne(w, u, plan, k, before, m) && RolledOne(u, v, plan, k, m, manifest)
    ensures RolledOne(w, v, plan, k, before, manifest)
  {
  }

  /** The target names the install and the backup is in place. */
  predicate Restorable(w: World, e: Entry, candidate: Content) {
    BackupOk(w.disk, e) && InstalledMatches(w.disk, e, candidate)
  }

  /** One entry of `rollback_committed`; a failure skips it and nothing else. */
  method RollbackEntry(w: World, plan: Plan, k: nat, before: seq<Entry>, ghost trail: seq<World>)
    returns (v: World, manifest: seq<Entry>, rolled: bool, ghost trail': seq<World>)
    requires plan.Valid() && Safe(w, plan) && Traced(trail, w, plan)
    requires w.gaveUp.Some?
    requires k < |before| && Aligned(plan, w.journal, before)
    ensures Safe(v, plan) && Traced(trail', v, plan) && trail <= trail'
    ensures RolledOne(w, v, plan, k, before, manifest)
    ensures Untouched(v, plan.targets[k]) && v.faults == w.faults ==> Reverted(v, plan, k, before[k])
    ensures Untouched(v, plan.targets[k]) && v.faults == w.faults && Restorable(w, before[k], plan.candidate) ==> rolled
    ensures rolled ==> WasRestored(trail', |trail|, manifest[k])
    ensures StateTold(rolled, before[k].state, manifest[k].state)
  {
    manifest, rolled := before, false;
    v, trail' := Interfere(w, plan, trail);
    var ok;
    v, ok, trail' := Check(v, plan, trail');
    assert TargetSafe(v, plan, k);
    if ok && BackupOk(v.disk, before[k]) && InstalledMatches(v.disk, before[k], plan.candidate) {
      ghost var past := trail';
      v, manifest, rolled, trail' := RestoreEntry(v, plan, k, before, trail');
      if rolled { RestoredSince(trail', |past|, |trail|, manifest[k]); }
    }
  }

  /** The entries from `k` on whose target is untouched and not back at its original bytes. */
  ghost function Unreverted(v: World, plan: Plan, manifest: seq<Entry>, k: nat): set<int>
    requires |manifest| <= |plan.targets|
  {
    set j | k <= j < |manifest| && Untouched(v, plan.targets[j]) && !Reverted(v, plan, j, manifest[j])
  }

  /** The target of entry `k` did name its backup at some point of the run after position `from`. */
  ghost predicate WasRestored(trail: seq<World>, from: nat, e: Entry) {
    exists i :: from <= i < |trail| && PinOf(trail[i].disk, e.target.path) == Some(e.backup)
  }

  /** Every path reported as rolled back is that of an entry from `k` on which says so and whose target was restored. */
  ghost predicate TrulyRolled(rolled: set<Path>, manifest: seq<Entry>, trail: seq<World>, from: nat, k: nat) {
    forall p :: p in rolled ==> exists j :: k <= j < |manifest| && RolledAt(manifest, j, p, trail, from)
  }

  ghost predicate RolledAt(manifest: seq<Entry>, j: nat, p: Path, trail: seq<World>, from: nat)
    requires j < |manifest|
  {
    && manifest[j].target.path == p && manifest[j].state == RolledBack && WasRestored(trail, from, manifest[j])
  }

  /** Every untouched entry from `k` on that could be restored at `w` is reported. */
  ghost predicate AllReported(w: World, v: World, plan: Plan, committed: seq<Entry>, k: nat, rolled: set<Path>) {
    forall j :: k <= j < |committed| && j < |plan.targets| && Untouched(v, plan.targets[j])
                && Restorable(w, committed[j], plan.candidate) ==>
      committed[j].target.path in rolled
  }

  /**
   `rollback_committed`: newest entry first, each on its own. Every target left
   unreverted costs a failed operation.
   */
  method Rollback(w: World, plan: Plan, committed: seq<Entry>, ghost trail: seq<World>)
    returns (v: World, manifest: seq<Entry>, rolled: set<Path>, ghost trail': seq<World>)
    requires plan.Valid() && Safe(w, plan) && Traced(trail, w, plan)
    requires w.gaveUp.Some?
    requires Aligned(plan, w.journal, committed)
    ensures Safe(v, plan) && Traced(trail', v, plan) && trail <= trail' && Onward(w, v)
    ensures Aligned(plan, v.journal, manifest) && |manifest| == |committed|
    ensures |Unreverted(v, plan, manifest, 0)| <= v.faults - w.faults
    ensures forall k :: |manifest| <= k < |plan.targets| && Untouched(v, plan.targets[k]) ==>
              AtOriginal(v, plan.targets[k])
    ensures TrulyRolled(rolled, manifest, trail', |trail|, 0)
    ensures v.faults == w.faults ==> AllReported(w, v, plan, committed, 0, rolled)
  {
    v, manifest, rolled, trail' := w, committed, {}, trail;
    var k := |committed|;
    assert Unreverted(v, plan, manifest, k) == {};
    while k > 0
      invariant 0 <= k <= |committed|
      invariant Safe(v, plan) && Traced(trail', v, plan) && trail <= trail' && Onward(w, v)
      invariant RollingBack(w, v, plan, committed, k, manifest, rolled, trail', |trail|)
    {
      k := k - 1;
      v, manifest, rolled, trail' := RollbackNext(w, v, plan, committed, k, manifest, rolled, trail', |trail|);
    }
    forall j | |committed| <= j < |plan.targets| && Untouched(v, plan.targets[j])
      ensures AtOriginal(v, plan.targets[j])
    {
      assert TargetSafe(v, plan, j);
    }
  }

  /** The entries from `k` on are done with; the others are as they were. */
  ghost predicate RollingBack(w: World, v: World, plan: Plan, committed: seq<Entry>, k: nat, manifest: seq<Entry>,
                              rolled: set<Path>, trail: seq<World>, from: nat) {
    && Aligned(plan, v.journal, manifest) && k <= |manifest| == |committed| && w.faults <= v.faults
    && |Unreverted(v, plan, manifest, k)| <= v.faults - w.faults
    && TrulyRolled(rolled, manifest, trail, from, k) && (forall j :: 0 <= j < k ==> manifest[j] == committed[j])
    && (v.faults == w.faults ==> AllReported(w, v, plan, committed, k, rolled))
    && (forall j :: 0 <= j < k ==> NamesKept(w, v, plan.targets[j]))
  }

  method RollbackNext(ghost w: World, u: World, plan: Plan, ghost committed: seq<Entry>, k: nat, before: seq<Entry>,
                      past: set<Path>, ghost trail: seq<World>, ghost from: nat)
    returns (v: World, manifest: seq<Entry>, rolled: set<Path>, ghost trail': seq<World>)
    requires plan.Valid() && Safe(u, plan) && Traced(trail, u, plan) && Onward(w, u) && u.gaveUp.Some?
    requires k < |before| && from <= |trail| && RollingBack(w, u, plan, committed, k + 1, before, past, trail, from)
    ensures Safe(v, plan) && Traced(trail', v, plan) && trail <= trail' && Onward(w, v)
    ensures RollingBack(w, v, plan, committed, k, manifest, rolled, trail', from)
  {
    var done;
    v, manifest, done, trail' := RollbackEntry(u, plan, k, before, trail);
    OneMoreReverted(u, v, plan, k, before, manifest);
    TrulyRolledOn(past, before, manifest, trail, trail', from, k, done);
    rolled := if done then past + {manifest[k].target.path} else past;
    ReportedOn(w, u, v, plan, committed, k, before, manifest, rolled);
  }

  /** Untouched names of this target mean what they did. */
  ghost predicate NamesKept(w: World, v: World, t: Target) {
    forall p :: p in Custody(t) && p !in v.touched ==> PinOf(v.disk, p) == PinOf(w.disk, p)
  }

  lemma ReportedOn(w: World, u: World, v: World, plan: Plan, committed: seq<Entry>, k: nat, before: seq<Entry>,
                   manifest: seq<Entry>, rolled: set<Path>)
    requires plan.Valid() && k < |committed| == |before| <= |plan.targets| && RolledOne(u, v, plan, k, before, manifest)
    requires Onward(w, u) && u.faults >= w.faults && before[k] == committed[k] && committed[k].target == plan.targets[k]
    requires forall j :: 0 <= j <= k ==> NamesKept(w, u, plan.targets[j])
    requires u.faults == w.faults ==> AllReported(w, u, plan, committed, k + 1, rolled)
    requires Untouched(v, plan.targets[k]) && v.faults == u.faults && Restorable(u, before[k], plan.candidate) ==>
               committed[k].target.path in rolled
    ensures v.faults == w.faults ==> AllReported(w, v, plan, committed, k, rolled)
    ensures forall j :: 0 <= j < k ==> NamesKept(w, v, plan.targets[j])
  {
    forall j | 0 <= j < k ensures NamesKept(w, v, plan.targets[j]) {
      assert NamesKept(w, u, plan.targets[j]);
    }
    assert NamesKept(w, u, plan.targets[k]);
  }

  lemma TrulyRolledOn(rolled: set<Path>, before: seq<Entry>, manifest: seq<Entry>, past: seq<World>,
                      trail: seq<World>, from: nat, k: nat, done: bool)
    requires TrulyRolled(rolled, before, past, from, k + 1) && past <= trail && from <= |past|
    requires k < |manifest| == |before| && (forall j :: 0 <= j < |before| && j != k ==> manifest[j] == before[j])
    requires done ==> WasRestored(trail, |past|, manifest[k]) && manifest[k].state == RolledBack
    ensures TrulyRolled(rolled, manifest, trail, from, k)
    ensures done ==> TrulyRolled(rolled + {manifest[k].target.path}, manifest, trail, from, k)
  {
    forall p | p in rolled ensures exists j :: k <= j < |manifest| && RolledAt(manifest, j, p, trail, from) {
      var j :| k + 1 <= j < |before| && RolledAt(before, j, p, past, from);
      RestoredStill(past, trail, from, before[j]);
      assert RolledAt(manifest, j, p, trail, from);
    }
    if done {
      RestoredSince(trail, |past|, from, manifest[k]);
      assert RolledAt(manifest, k, manifest[k].target.path, trail, from);
    }
  }

  /** One more entry was rolled back: at most its own target is newly left, and then something failed. */
  lemma OneMoreReverted(w: World, v: World, plan: Plan, k: nat, before: seq<Entry>, manifest: seq<Entry>)
    requires plan.Valid() && k < |before| <= |plan.targets| && RolledOne(w, v, plan, k, before, manifest)
    requires Untouched(v, plan.targets[k]) && v.faults == w.faults ==> Reverted(v, plan, k, before[k])
    ensures |Unreverted(v, plan, manifest, k)| <= |Unreverted(w, plan, before, k + 1)| + (v.faults - w.faults)
  {
    OthersStayReverted(w, v, plan, k, before, manifest);
    var left, was := Unreverted(v, plan, manifest, k), Unreverted(w, plan, before, k + 1);
    forall j | j in left && j != k ensures j in was {
      assert Untouched(w, plan.targets[j]);
    }
    if v.faults == w.faults {
      assert SameCustody(manifest[k], before[k]);
      assert k !in left;
      SubsetSize(left, was);
    } else {
      SubsetSize(left, was + {k});
    }
  }

  lemma OthersStayReverted(w: World, v: World, plan: Plan, k: nat, before: seq<Entry>, manifest: seq<Entry>)
    requires plan.Valid() && k < |before| <= |plan.targets| && RolledOne(w, v, plan, k, before, manifest)
    ensures forall j :: k < j < |before| && Untouched(v, plan.targets[j]) && Reverted(w, plan, j, before[j]) ==>
              Reverted(v, plan, j, manifest[j])
  {
    forall j | k < j < |before| && Untouched(v, plan.targets[j]) && Reverted(w, plan, j, before[j])
      ensures Reverted(v, plan, j, manifest[j])
    {
      assert manifest[j].target == plan.targets[j];
      assert plan.targets[j].path !in Custody(plan.targets[k]);
    }
  }
}
