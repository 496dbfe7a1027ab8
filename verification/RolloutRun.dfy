/** A whole rollout, and what it does when nobody disturbs it. */
module RolloutRun {
  import opened Basics
  import opened RolloutDisk
  import opened Rollout
  import opened Traces

  // ---- The whole run, and what it does when left alone -------------------------------

  datatype Status = Success | Failed

  /** Names this run takes off the inode while installing the first `k` targets. */
  function Removed(targets: seq<Target>, k: nat, ino: Inode): nat
    requires k <= |targets|
  {
    if k == 0 then 0 else Removed(targets, k - 1, ino) + (if targets[k - 1].original.ino == ino then 1 else 0)
  }

  predicate HasCandidate(d: Disk, plan: Plan, j: nat)
    requires j < |plan.targets|
  {
    var pin := PinOf(d, plan.targets[j].path);
    pin.Some? && pin.value.file == StageFile(plan.targets[j], plan.candidate)
  }

  /** Target `j` is as preflight saw it, less the links this run took off its inode with `k` targets done. */
  predicate AsPreflightSaw(d: Disk, plan: Plan, k: nat, j: nat)
    requires k <= |plan.targets| && j < |plan.targets|
  {
    var t := plan.targets[j];
    && PinOf(d, t.path) == Some(t.original) && t.backup !in d.names && t.stage !in d.names
    && Links(d, t.original.ino) == t.links - Removed(plan.targets, k, t.original.ino)
  }

  /** Undisturbed, with the first `k` targets installed. */
  ghost predicate OnTrack(d: Disk, plan: Plan, k: nat)
    requires k <= |plan.targets|
  {
    && d.Shaped()
    && (forall j :: 0 <= j < k ==> HasCandidate(d, plan, j))
    && (forall j :: k <= j < |plan.targets| ==> AsPreflightSaw(d, plan, k, j))
  }

  /** Names outside the run: every other hard link among them. */
  ghost predicate Bystander(plan: Plan, p: Path) {
    forall k :: 0 <= k < |plan.targets| ==> p !in Custody(plan.targets[k])
  }

  /** New names for new inodes change no other inode's link count. */
  lemma LinksAfterStaging(d: Disk, t: Target, candidate: Content, i: Inode)
    requires d.Shaped() && i < d.next && t.backup !in d.names && t.stage !in d.names
    ensures Links(Staged(d, t, candidate), i) == Links(d, i)
  {
    var e := Staged(d, t, candidate);
    assert (set p | p in e.names && e.names[p] == i) == (set p | p in d.names && d.names[p] == i);
  }

  /** The rename takes exactly one name off the inode that the target named. */
  lemma LinksAfterRename(d: Disk, src: Path, dst: Path, i: Inode)
    requires src in d.names && dst in d.names && src != dst && d.names[src] != i
    ensures Links(Renamed(d, src, dst), i) == Links(d, i) - (if d.names[dst] == i then 1 else 0)
  {
    var e := Renamed(d, src, dst);
    var before := set p | p in d.names && d.names[p] == i;
    assert (set p | p in e.names && e.names[p] == i) == before - {dst};
  }

  /** The link count `apply` expects is the one it finds. */
  lemma {:induction false} RemovalsAgree(plan: Plan, manifest: seq<Entry>, ino: Inode)
    requires |manifest| <= |plan.targets|
    requires forall j :: 0 <= j < |manifest| ==> manifest[j].target == plan.targets[j]
    ensures OwnRemovals(manifest, ino) == Removed(plan.targets, |manifest|, ino)
    decreases |manifest|
  {
    if manifest != [] { RemovalsAgree(plan, manifest[..|manifest| - 1], ino); }
  }

  /** The disk after target `t` was staged and installed. */
  function Done(d: Disk, t: Target, candidate: Content): Disk {
    var e := Staged(d, t, candidate);
    if t.stage in e.names then Renamed(e, t.stage, t.path) else e
  }

  lemma DonePins(d: Disk, t: Target, candidate: Content)
    requires d.Shaped() && t.path != t.backup && t.path != t.stage && t.backup != t.stage
    ensures t.stage in Staged(d, t, candidate).names && Staged(d, t, candidate).Shaped()
    ensures Done(d, t, candidate).Shaped()
    ensures PinOf(Staged(d, t, candidate), t.backup) == Some(Pin(d.next, t.original.file))
    ensures PinOf(Staged(d, t, candidate), t.stage) == Some(Pin(d.next + 1, StageFile(t, candidate)))
    ensures PinOf(Staged(d, t, candidate), t.path) == PinOf(d, t.path)
    ensures PinOf(Done(d, t, candidate), t.path) == Some(Pin(d.next + 1, StageFile(t, candidate)))
    ensures forall p :: p !in Custody(t) ==>
              PinOf(Done(d, t, candidate), p) == PinOf(d, p) && (p in Done(d, t, candidate).names <==> p in d.names)
  {
    CreatedPins(d, t.backup, t.original.file);
    CreatedPins(Created(d, t.backup, t.original.file), t.stage, StageFile(t, candidate));
    RenamedPins(Staged(d, t, candidate), t.stage, t.path);
  }

  lemma DoneLinks(d: Disk, t: Target, candidate: Content, i: Inode)
    requires d.Shaped() && t.path != t.backup && t.path != t.stage && t.backup != t.stage
    requires t.backup !in d.names && t.stage !in d.names && t.path in d.names && i < d.next
    ensures Links(Done(d, t, candidate), i) == Links(d, i) - (if d.names[t.path] == i then 1 else 0)
  {
    LinksAfterStaging(d, t, candidate, i);
    LinksAfterRename(Staged(d, t, candidate), t.stage, t.path, i);
  }

  /** Installing target `k` leaves every later target as preflight saw it, with its link count brought forward. */
  lemma LaterTargetsKept(d: Disk, plan: Plan, k: nat, j: nat)
    requires plan.Valid() && k < j < |plan.targets| && OnTrack(d, plan, k)
    ensures AsPreflightSaw(Done(d, plan.targets[k], plan.candidate), plan, k + 1, j)
  {
    var t, u := plan.targets[k], plan.targets[j];
    assert AsPreflightSaw(d, plan, k, k) && AsPreflightSaw(d, plan, k, j);
    assert u.path !in Custody(t) && u.backup !in Custody(t) && u.stage !in Custody(t);
    DonePins(d, t, plan.candidate);
    DoneLinks(d, t, plan.candidate, u.original.ino);
  }

  lemma CandidateKept(d: Disk, plan: Plan, k: nat, j: nat)
    requires plan.Valid() && j < k < |plan.targets| && OnTrack(d, plan, k)
    ensures HasCandidate(Done(d, plan.targets[k], plan.candidate), plan, j)
  {
    DonePins(d, plan.targets[k], plan.candidate);
    assert HasCandidate(d, plan, j) && plan.targets[j].path !in Custody(plan.targets[k]);
  }

  lemma BystandersKept(d: Disk, plan: Plan, k: nat)
    requires plan.Valid() && k < |plan.targets| && d.Shaped()
    ensures var f := Done(d, plan.targets[k], plan.candidate);
            && f.Shaped() && HasCandidate(f, plan, k)
            && forall p :: Bystander(plan, p) ==> PinOf(f, p) == PinOf(d, p)
  {
    DonePins(d, plan.targets[k], plan.candidate);
  }

  /** Staging and installing target `k` keeps the run on track. */
  lemma InstallStaysOnTrack(d: Disk, plan: Plan, k: nat)
    requires plan.Valid() && k < |plan.targets| && OnTrack(d, plan, k)
    ensures OnTrack(Done(d, plan.targets[k], plan.candidate), plan, k + 1)
    ensures forall p :: Bystander(plan, p) ==> PinOf(Done(d, plan.targets[k], plan.candidate), p) == PinOf(d, p)
  {
    BystandersKept(d, plan, k);
    TrackKept(d, Done(d, plan.targets[k], plan.candidate), plan, k, k + 1);
  }

  lemma TrackKept(d: Disk, f: Disk, plan: Plan, k: nat, n: nat)
    requires plan.Valid() && k < |plan.targets| && n == k + 1 && OnTrack(d, plan, k)
    requires f == Done(d, plan.targets[k], plan.candidate) && f.Shaped() && HasCandidate(f, plan, k)
    ensures OnTrack(f, plan, n)
  {
    forall j | 0 <= j < k ensures HasCandidate(f, plan, j) {
      CandidateKept(d, plan, k, j);
    }
    forall j | n <= j < |plan.targets| ensures AsPreflightSaw(f, plan, n, j) {
      LaterTargetsKept(d, plan, k, j);
    }
  }

  /**
   `apply`: every target in turn; the first discrepancy stops the run and rolls it back.
   Success means that every untouched target is what this run installed. After a failure,
   every untouched target that is not back at its original bytes costs an operation that
   failed after the run gave up.
   */
  method Apply(w: World, plan: Plan)
    returns (v: World, status: Status, manifest: seq<Entry>, rolled: set<Path>, ghost trail: seq<World>)
    requires plan.Valid() && Safe(w, plan) && w.gaveUp.None?
    requires w.journal == [] && w.replaced == {} && w.checked.None?
    ensures Safe(v, plan) && Traced(trail, v, plan) && trail[0] == w
    ensures Aligned(plan, v.journal, manifest) && Honest(v, plan)
    ensures Accumulates(w, v) && forall k :: 0 <= k < |plan.targets| ==> Recorded(w, v, plan, k)
    ensures status == Success ==> Applied(v, plan, manifest, trail) && v.faults == w.faults
    ensures status == Failed <==> v.gaveUp.Some?
    ensures status == Failed ==> Remedied(v, plan, manifest)
    ensures if status == Success then rolled == {} else TrulyRolled(rolled, manifest, trail, 0, 0)
    ensures v.gaveUp == Some(v.faults) ==> v.journal == manifest
    ensures status == Failed && v.gaveUp == Some(w.budget) ==> AllOriginal(v, plan)
    ensures w.Calm() ==> (status == Success <==> OnTrack(w.disk, plan, 0))
    ensures w.Calm() && status == Success ==>
              && (forall k :: 0 <= k < |plan.targets| ==> HasCandidate(v.disk, plan, k))
              && (forall p :: Bystander(plan, p) ==> PinOf(v.disk, p) == PinOf(w.disk, p))
  {
    StartTrace(w, plan);
    v, status, manifest, trail := InstallAll(w, plan, [w]);
    rolled := {};
    if status == Failed {
      v, trail := GiveUp(v, plan, trail);
      ghost var n := |trail|;
      v, manifest, rolled, trail := UndoAll(v, plan, manifest, trail);
      StaysRolled(rolled, manifest, trail, trail, n);
    }
    RunIsHonest(trail, v, plan, |trail| - 1);
    RunAccumulates(trail, v, plan);
    forall k | 0 <= k < |plan.targets| ensures Recorded(w, v, plan, k) {
      RunIsOnRecord(trail, v, plan, |trail| - 1, k);
    }
    if v.gaveUp == Some(w.budget) { RemediedFully(v, plan, manifest); }
  }

  /** Roll back what was committed, and journal that. */
  method UndoAll(w: World, plan: Plan, committed: seq<Entry>, ghost trail: seq<World>)
    returns (v: World, manifest: seq<Entry>, rolled: set<Path>, ghost trail': seq<World>)
    requires plan.Valid() && Safe(w, plan) && Traced(trail, w, plan) && w.gaveUp == Some(w.faults)
    requires Aligned(plan, w.journal, committed)
    ensures Safe(v, plan) && Traced(trail', v, plan) && trail <= trail' && Onward(w, v)
    ensures Aligned(plan, v.journal, manifest) && Remedied(v, plan, manifest)
    ensures TrulyRolled(rolled, manifest, trail', |trail|, 0)
    ensures v.faults == w.faults ==> AllReported(w, v, plan, committed, 0, rolled) && v.journal == manifest
  {
    var ok;
    v, manifest, rolled, trail' := Rollback(w, plan, committed, trail);
    ghost var u, past := v, trail';
    v, ok, trail' := WriteJournal(v, plan, manifest, trail');
    StaysRolled(rolled, manifest, past, trail', |trail|);
    assert Unreverted(v, plan, manifest, 0) == Unreverted(u, plan, manifest, 0);
  }

  lemma StaysRolled(rolled: set<Path>, manifest: seq<Entry>, past: seq<World>, trail: seq<World>, from: nat)
    requires TrulyRolled(rolled, manifest, past, from, 0) && past <= trail
    ensures TrulyRolled(rolled, manifest, trail, from, 0)
    ensures TrulyRolled(rolled, manifest, trail, 0, 0)
  {
    forall p | p in rolled
      ensures exists j ::
                0 <= j < |manifest| && RolledAt(manifest, j, p, trail, from) && RolledAt(manifest, j, p, trail, 0)
    {
      var j :| 0 <= j < |manifest| && RolledAt(manifest, j, p, past, from);
      RestoredStill(past, trail, from, manifest[j]);
      RestoredSince(trail, from, 0, manifest[j]);
      assert RolledAt(manifest, j, p, trail, from) && RolledAt(manifest, j, p, trail, 0);
    }
  }

  /**
   All targets are journalled, each was seen ready and then to name its install, and the untouched
   ones still do.
   */
  ghost predicate Applied(v: World, plan: Plan, manifest: seq<Entry>, trail: seq<World>) {
    && AllVerified(v, plan, manifest, trail) && AllMarked(manifest)
    && (forall j :: 0 <= j < |plan.targets| ==> SeenReady(trail, plan, j))
  }

  /** Every entry is marked as installed. */
  ghost predicate AllMarked(manifest: seq<Entry>) {
    forall j :: 0 <= j < |manifest| ==> manifest[j].state == Installed
  }

  lemma OneMoreMarked(before: seq<Entry>, manifest: seq<Entry>)
    requires AllMarked(before) && |manifest| == |before| + 1 && manifest[..|before|] == before
    requires manifest[|before|].state == Installed
    ensures AllMarked(manifest)
  {
    forall j | 0 <= j < |before| ensures manifest[j].state == Installed {
      assert manifest[..|before|][j] == manifest[j];
    }
  }

  ghost predicate AllVerified(v: World, plan: Plan, manifest: seq<Entry>, trail: seq<World>) {
    && |manifest| == |plan.targets| && v.journal == manifest
    && forall j :: 0 <= j < |manifest| ==> Verified(v, plan, manifest, trail, j)
  }

  /** Before it was replaced, target `k` was seen as the original, with the links that preflight and this run leave. */
  ghost predicate SeenReady(trail: seq<World>, plan: Plan, k: nat)
    requires k < |plan.targets|
  {
    var t := plan.targets[k];
    exists i :: 0 <= i < |trail| && LookSaw(trail[i], t, t.links - Removed(plan.targets, k, t.original.ino))
  }

  lemma StaysSeen(past: seq<World>, trail: seq<World>, plan: Plan, k: nat)
    requires k < |plan.targets| && SeenReady(past, plan, k) && past <= trail
    ensures SeenReady(trail, plan, k)
  {
    var t := plan.targets[k];
    var i :| 0 <= i < |past| && LookSaw(past[i], t, t.links - Removed(plan.targets, k, t.original.ino));
    assert trail[i] == past[i];
  }

  /** Entry `j` was seen installed, and still is while its names are untouched. */
  ghost predicate Verified(v: World, plan: Plan, manifest: seq<Entry>, trail: seq<World>, j: nat)
    requires j < |manifest| == |plan.targets|
  {
    && WasInstalled(trail, plan, manifest[j])
    && (Untouched(v, plan.targets[j]) ==> InstalledMatches(v.disk, manifest[j], plan.candidate))
  }

  /** At some point of the run the target named what this run installed. */
  ghost predicate WasInstalled(trail: seq<World>, plan: Plan, e: Entry) {
    exists i :: 0 <= i < |trail| && InstalledMatches(trail[i].disk, e, plan.candidate)
  }

  /** Every target that no outsider touched has its original bytes. */
  ghost predicate AllOriginal(v: World, plan: Plan) {
    forall k :: 0 <= k < |plan.targets| && Untouched(v, plan.targets[k]) ==>
      PinOf(v.disk, plan.targets[k].path).Some?
      && PinOf(v.disk, plan.targets[k].path).value.file == plan.targets[k].original.file
  }

  /** After giving up: what is left unreverted is paid for by failures since, and the rest was never changed. */
  ghost predicate Remedied(v: World, plan: Plan, manifest: seq<Entry>) {
    && v.gaveUp.Some? && v.gaveUp.value <= v.faults && |manifest| <= |plan.targets|
    && |Unreverted(v, plan, manifest, 0)| <= v.faults - v.gaveUp.value
    && forall k :: |manifest| <= k < |plan.targets| && Untouched(v, plan.targets[k]) ==> AtOriginal(v, plan.targets[k])
  }

  /** If nothing failed while rolling back, every untouched target has its original bytes. */
  lemma RemediedFully(v: World, plan: Plan, manifest: seq<Entry>)
    requires Remedied(v, plan, manifest) && v.gaveUp == Some(v.faults) && Aligned(plan, v.journal, manifest)
    ensures AllOriginal(v, plan)
  {
    assert Unreverted(v, plan, manifest, 0) == {};
    forall k | 0 <= k < |manifest| && Untouched(v, plan.targets[k]) ensures Reverted(v, plan, k, manifest[k]) {
      assert k !in Unreverted(v, plan, manifest, 0);
    }
  }

  lemma StartTrace(w: World, plan: Plan)
    requires Safe(w, plan)
    ensures Traced([w], w, plan)
  {
  }

  /** The failure is recorded in the manifest: nothing on disk changes. */
  method GiveUp(w: World, ghost plan: Plan, ghost trail: seq<World>) returns (v: World, ghost trail': seq<World>)
    requires Safe(w, plan) && Traced(trail, w, plan) && w.gaveUp.None?
    ensures Safe(v, plan) && Traced(trail', v, plan) && trail <= trail' && GivesUp(w, v)
  {
    v := w.(gaveUp := Some(w.faults), checked := None);
    InterferenceKeepsSafe(w, v, plan);
    TraceOn(trail, w, v, plan);
    trail' := trail + [v];
  }

  /** The loop of `apply`, then the final verification. */
  method InstallAll(w: World, plan: Plan, ghost trail: seq<World>)
    returns (v: World, status: Status, manifest: seq<Entry>, ghost trail': seq<World>)
    requires plan.Valid() && Safe(w, plan) && Traced(trail, w, plan) && w.journal == [] && w.gaveUp.None?
    ensures Safe(v, plan) && Traced(trail', v, plan) && trail <= trail' && Onward(w, v)
    ensures Aligned(plan, v.journal, manifest)
    ensures status == Success ==> Applied(v, plan, manifest, trail') && v.faults == w.faults
    ensures w.Calm() ==> (status == Success <==> OnTrack(w.disk, plan, 0))
    ensures w.Calm() && status == Success ==>
              && OnTrack(v.disk, plan, |plan.targets|)
              && (forall p :: Bystander(plan, p) ==> PinOf(v.disk, p) == PinOf(w.disk, p))
  {
    v, manifest, trail' := w, [], trail;
    ghost var disks := [w.disk];
    for k := 0 to |plan.targets|
      invariant Safe(v, plan) && Traced(trail', v, plan) && trail <= trail' && Onward(w, v)
      invariant |manifest| == k && v.journal == manifest && AllMarked(manifest) && v.faults == w.faults
      invariant forall j :: 0 <= j < k ==> SeenReady(trail', plan, j)
      invariant w.Calm() ==> Stepwise(disks, plan, w.disk, v.disk, k) && AllInstalled(v.disk, plan, manifest)
    {
      var ok;
      ghost var past, before := trail', manifest;
      v, manifest, ok, trail' := InstallOne(v, plan, k, manifest, trail');
      if !ok {
        status := Failed;
        if w.Calm() && OnTrack(w.disk, plan, 0) { OnTrackStays(disks, plan, k, k); }
        return;
      }
      OneMoreMarked(before, manifest);
      if w.Calm() { OneMoreDisk(disks, plan, w.disk, past[|past| - 1].disk, v.disk, k); }
      disks := disks + [v.disk];
      forall j | 0 <= j < k ensures SeenReady(trail', plan, j) {
        StaysSeen(past, trail', plan, j);
      }
    }
    var ok;
    ghost var past := trail';
    v, ok, trail' := Finish(v, plan, manifest, trail');
    status := if ok then Success else Failed;
    forall j | 0 <= j < |plan.targets| ensures SeenReady(trail', plan, j) {
      StaysSeen(past, trail', plan, j);
    }
    if w.Calm() {
      AllPassedIsOnTrack(disks, plan);
      OnTrackStays(disks, plan, |plan.targets|, |plan.targets|);
    }
  }

  /** From `disks[i]` to `disks[i + 1]` target `i`, then as preflight saw it, was staged and installed. */
  ghost predicate StepAt(disks: seq<Disk>, plan: Plan, i: nat)
    requires i < |plan.targets| && i + 1 < |disks|
  {
    && AsPreflightSaw(disks[i], plan, i, i)
    && disks[i + 1] == Done(disks[i], plan.targets[i], plan.candidate)
  }

  /** The disks of an undisturbed run, from `first` to `last`, with the first `k` targets installed. */
  ghost predicate Stepwise(disks: seq<Disk>, plan: Plan, first: Disk, last: Disk, k: nat) {
    && |disks| == k + 1 && k <= |plan.targets| && disks[0] == first && disks[k] == last && first.Shaped()
    && forall i :: 0 <= i < k ==> StepAt(disks, plan, i)
  }

  lemma OneMoreDisk(disks: seq<Disk>, plan: Plan, first: Disk, last: Disk, next: Disk, k: nat)
    requires Stepwise(disks, plan, first, last, k) && k < |plan.targets| && AsPreflightSaw(last, plan, k, k)
    requires next == Done(last, plan.targets[k], plan.candidate)
    ensures Stepwise(disks + [next], plan, first, next, k + 1)
  {
    var more := disks + [next];
    forall i | 0 <= i < k + 1 ensures StepAt(more, plan, i) {
      if i < k { assert StepAt(disks, plan, i); }
      assert more[i] == disks[i];
    }
  }

  /** If all targets were as preflight saw them, the run stays on track and changes no other name. */
  lemma {:induction false} OnTrackStays(disks: seq<Disk>, plan: Plan, n: nat, k: nat)
    requires plan.Valid() && |disks| == n + 1 && Stepwise(disks, plan, disks[0], disks[n], n)
    requires OnTrack(disks[0], plan, 0) && k <= n
    ensures OnTrack(disks[k], plan, k)
    ensures forall p :: Bystander(plan, p) ==> PinOf(disks[k], p) == PinOf(disks[0], p)
    decreases k
  {
    if k > 0 {
      OnTrackStays(disks, plan, n, k - 1);
      assert StepAt(disks, plan, k - 1);
      OneMoreOnTrack(disks[0], disks[k - 1], disks[k], plan, k - 1, k);
    }
  }

  lemma OneMoreOnTrack(d: Disk, f: Disk, g: Disk, plan: Plan, k: nat, n: nat)
    requires plan.Valid() && n == k + 1 <= |plan.targets| && OnTrack(f, plan, k)
    requires g == Done(f, plan.targets[k], plan.candidate)
    requires forall p :: Bystander(plan, p) ==> PinOf(f, p) == PinOf(d, p)
    ensures OnTrack(g, plan, n) && forall p :: Bystander(plan, p) ==> PinOf(g, p) == PinOf(d, p)
  {
    InstallStaysOnTrack(f, plan, k);
  }

  /** If every target was as it should be when its turn came, all were from the start. */
  lemma AllPassedIsOnTrack(disks: seq<Disk>, plan: Plan)
    requires plan.Valid() && |disks| == |plan.targets| + 1
    requires Stepwise(disks, plan, disks[0], disks[|plan.targets|], |plan.targets|)
    ensures OnTrack(disks[0], plan, 0)
  {
    forall j | 0 <= j < |plan.targets| ensures AsPreflightSaw(disks[0], plan, 0, j) {
      assert StepAt(disks, plan, j);
      SawFromStart(disks, plan, j, j);
    }
  }

  lemma {:induction false} SawFromStart(disks: seq<Disk>, plan: Plan, k: nat, j: nat)
    requires plan.Valid() && |disks| == |plan.targets| + 1
    requires Stepwise(disks, plan, disks[0], disks[|plan.targets|], |plan.targets|)
    requires k <= j < |plan.targets| && AsPreflightSaw(disks[k], plan, k, j)
    ensures AsPreflightSaw(disks[0], plan, 0, j)
    decreases k
  {
    if k > 0 {
      assert StepAt(disks, plan, k - 1);
      StaysShaped(disks, plan, k - 1);
      SawBefore(disks[k - 1], disks[k], plan, k - 1, k, j);
      SawFromStart(disks, plan, k - 1, j);
    }
  }

  lemma {:induction false} StaysShaped(disks: seq<Disk>, plan: Plan, k: nat)
    requires plan.Valid() && |disks| == |plan.targets| + 1 && k <= |plan.targets|
    requires Stepwise(disks, plan, disks[0], disks[|plan.targets|], |plan.targets|)
    ensures disks[k].Shaped()
    decreases k
  {
    if k > 0 {
      StaysShaped(disks, plan, k - 1);
      assert StepAt(disks, plan, k - 1);
      DonePins(disks[k - 1], plan.targets[k - 1], plan.candidate);
    }
  }

  /** Installing target `k` does not make a later target what it was not. */
  lemma SawBefore(d: Disk, f: Disk, plan: Plan, k: nat, n: nat, j: nat)
    requires plan.Valid() && d.Shaped() && n == k + 1 <= j < |plan.targets| && AsPreflightSaw(d, plan, k, k)
    requires f == Done(d, plan.targets[k], plan.candidate) && AsPreflightSaw(f, plan, n, j)
    ensures AsPreflightSaw(d, plan, k, j)
  {
    var t, u := plan.targets[k], plan.targets[j];
    assert u.path !in Custody(t) && u.backup !in Custody(t) && u.stage !in Custody(t);
    DonePins(d, t, plan.candidate);
    DoneLinks(d, t, plan.candidate, u.original.ino);
  }

  /** Every entry's target names its install. */
  ghost predicate AllInstalled(d: Disk, plan: Plan, manifest: seq<Entry>) {
    forall j :: 0 <= j < |manifest| ==> InstalledMatches(d, manifest[j], plan.candidate)
  }

  /** Journal that all is applied, verify it, and journal the success. */
  method Finish(w: World, plan: Plan, manifest: seq<Entry>, ghost trail: seq<World>)
    returns (v: World, ok: bool, ghost trail': seq<World>)
    requires plan.Valid() && Safe(w, plan) && Traced(trail, w, plan)
    requires |manifest| == |plan.targets| && w.journal == manifest
    ensures Safe(v, plan) && Traced(trail', v, plan) && trail <= trail' && Onward(w, v)
    ensures Aligned(plan, v.journal, manifest)
    ensures ok ==> AllVerified(v, plan, manifest, trail') && v.faults == w.faults
    ensures w.Calm() ==> v.disk == w.disk && (AllInstalled(w.disk, plan, manifest) ==> ok)
  {
    v, ok, trail' := WriteJournal(w, plan, manifest, trail);
    if !ok { return; }
    v, ok, trail' := PostVerify(v, plan, manifest, trail');
    if !ok { return; }
    ghost var u, past := v, trail';
    v, ok, trail' := WriteJournal(v, plan, manifest, trail');
    forall j | 0 <= j < |manifest| ensures Verified(v, plan, manifest, trail', j) {
      StaysVerified(u, v, plan, manifest, past, trail', j);
    }
  }

  lemma StillOnTrail(past: seq<World>, trail: seq<World>, plan: Plan, e: Entry)
    requires WasInstalled(past, plan, e) && past <= trail
    ensures WasInstalled(trail, plan, e)
  {
    var i :| 0 <= i < |past| && InstalledMatches(past[i].disk, e, plan.candidate);
    assert trail[i] == past[i];
  }

  lemma InstalledNow(trail: seq<World>, v: World, plan: Plan, e: Entry)
    requires Traced(trail, v, plan) && InstalledMatches(v.disk, e, plan.candidate)
    ensures WasInstalled(trail, plan, e)
  {
    var i := |trail| - 1;
    assert InstalledMatches(trail[i].disk, e, plan.candidate);
  }

  /** `post_verify`: every entry's target in turn, then workers, hooks and unnamed links. */
  method PostVerify(w: World, plan: Plan, manifest: seq<Entry>, ghost trail: seq<World>)
    returns (v: World, ok: bool, ghost trail': seq<World>)
    requires plan.Valid() && Safe(w, plan) && Traced(trail, w, plan)
    requires |manifest| == |plan.targets| && w.journal == manifest
    ensures Safe(v, plan) && Traced(trail', v, plan) && trail <= trail' && Onward(w, v) && v.journal == manifest
    ensures ok ==> AllVerified(v, plan, manifest, trail') && v.faults == w.faults
    ensures w.Calm() ==> v.disk == w.disk && (AllInstalled(w.disk, plan, manifest) ==> ok)
  {
    v, trail', ok := w, trail, true;
    for k := 0 to |manifest|
      invariant Safe(v, plan) && Traced(trail', v, plan) && trail <= trail' && Onward(w, v) && v.journal == manifest
      invariant forall j :: 0 <= j < k ==> Verified(v, plan, manifest, trail', j)
      invariant (w.Calm() ==> v.disk == w.disk) && v.faults == w.faults
    {
      ghost var u, past := v, trail';
      v, trail' := Interfere(v, plan, trail');
      ok := InstalledMatches(v.disk, manifest[k], plan.candidate);
      if !ok { return; }
      InstalledNow(trail', v, plan, manifest[k]);
      forall j | 0 <= j < k ensures Verified(v, plan, manifest, trail', j) {
        StaysVerified(u, v, plan, manifest, past, trail', j);
      }
    }
    ghost var u, past := v, trail';
    v, ok, trail' := Verify(v, plan, trail');
    forall j | 0 <= j < |manifest| ensures Verified(v, plan, manifest, trail', j) {
      StaysVerified(u, v, plan, manifest, past, trail', j);
    }
  }

  lemma StaysVerified(w: World, v: World, plan: Plan, manifest: seq<Entry>, past: seq<World>, trail: seq<World>, j: nat)
    requires j < |manifest| == |plan.targets| && Verified(w, plan, manifest, past, j) && past <= trail
    requires Accounted(w, v) && Aligned(plan, manifest, manifest)
    ensures Verified(v, plan, manifest, trail, j)
  {
    StillOnTrail(past, trail, plan, manifest[j]);
    assert manifest[j].target == plan.targets[j];
    if Untouched(v, plan.targets[j]) { assert plan.targets[j].path !in v.touched; }
  }

  /** One target: stage, install, and look at the siblings that share its inode. */
  method InstallOne(w: World, plan: Plan, k: nat, before: seq<Entry>, ghost trail: seq<World>)
    returns (v: World, manifest: seq<Entry>, ok: bool, ghost trail': seq<World>)
    requires plan.Valid() && Safe(w, plan) && Traced(trail, w, plan) && w.gaveUp.None?
    requires k == |before| < |plan.targets| && w.journal == before
    ensures Safe(v, plan) && Traced(trail', v, plan) && trail <= trail' && Onward(w, v)
    ensures Aligned(plan, v.journal, manifest)
    ensures ok ==> |manifest| == k + 1 && manifest[..k] == before && v.journal == manifest
                   && SeenReady(trail', plan, k) && InstalledMatches(v.disk, manifest[k], plan.candidate)
                   && manifest[k].state == Installed && v.faults == w.faults
    ensures w.Calm() ==> (ok <==> AsPreflightSaw(w.disk, plan, k, k))
    ensures w.Calm() && ok ==> v.disk == Done(w.disk, plan.targets[k], plan.candidate)
    ensures w.Calm() && ok && AllInstalled(w.disk, plan, before) ==> AllInstalled(v.disk, plan, manifest)
  {
    v, manifest, ok, trail' := StageAndInstall(w, plan, k, before, trail);
    if !ok { return; }
    if w.Calm() && AllInstalled(w.disk, plan, before) {
      OneMoreInstalled(w.disk, plan, k, before, manifest);
    }
    ghost var past := trail';
    v, ok, trail' := Verify(v, plan, trail');
    StaysSeen(past, trail', plan, k);
  }

  method StageAndInstall(w: World, plan: Plan, k: nat, before: seq<Entry>, ghost trail: seq<World>)
    returns (v: World, manifest: seq<Entry>, ok: bool, ghost trail': seq<World>)
    requires plan.Valid() && Safe(w, plan) && Traced(trail, w, plan) && w.gaveUp.None?
    requires k == |before| < |plan.targets| && w.journal == before
    ensures Safe(v, plan) && Traced(trail', v, plan) && trail <= trail' && Onward(w, v)
    ensures Aligned(plan, v.journal, manifest)
    ensures ok ==> |manifest| == k + 1 && manifest[..k] == before && v.journal == manifest
                   && SeenReady(trail', plan, k) && InstalledMatches(v.disk, manifest[k], plan.candidate)
                   && manifest[k].state == Installed && v.faults == w.faults
    ensures w.Calm() ==> (ok <==> AsPreflightSaw(w.disk, plan, k, k))
    ensures w.Calm() && ok ==> v.disk == Done(w.disk, plan.targets[k], plan.candidate)
  {
    manifest := before;
    var staged;
    v, staged, trail' := Stage(w, plan, k, trail);
    if staged.None? { ok := false; return; }
    if w.Calm() { StagedIsReady(w.disk, plan, k, before, staged.value); }
    RemovalsAgree(plan, before, plan.targets[k].original.ino);
    ghost var past := trail';
    v, manifest, ok, trail' := Install(v, plan, k, before, staged.value, trail');
    if ok { SeenNow(trail', plan, k, |past|); }
  }

  lemma SeenNow(trail: seq<World>, plan: Plan, k: nat, from: nat)
    requires k < |plan.targets|
    requires var t := plan.targets[k];
             exists i :: from <= i < |trail|
                         && LookSaw(trail[i], t, t.links - Removed(plan.targets, k, t.original.ino))
    ensures SeenReady(trail, plan, k)
  {
  }

  /** A staged target is ready if and only if it is as preflight saw it, and renaming the stage completes it. */
  lemma StagedIsReady(d: Disk, plan: Plan, k: nat, before: seq<Entry>, e: Entry)
    requires plan.Valid() && k == |before| < |plan.targets| && d.Shaped()
    requires forall j :: 0 <= j < k ==> before[j].target == plan.targets[j]
    requires e.target == plan.targets[k] && e.backup == Pin(d.next, plan.targets[k].original.file)
    requires e.install == Pin(d.next + 1, StageFile(plan.targets[k], plan.candidate))
    requires PinOf(d, e.target.path) == Some(e.target.original)
    requires e.target.backup !in d.names && e.target.stage !in d.names
    ensures var staged, done := Staged(d, e.target, plan.candidate), Done(d, e.target, plan.candidate);
            && (ReadyToInstall(staged, e, ExpectedLinks(e.target, before)) <==> AsPreflightSaw(d, plan, k, k))
            && e.target.stage in staged.names && done == Renamed(staged, e.target.stage, e.target.path)
  {
    var t := plan.targets[k];
    DonePins(d, t, plan.candidate);
    LinksAfterStaging(d, t, plan.candidate, t.original.ino);
    RemovalsAgree(plan, before, t.original.ino);
  }

  lemma OneMoreInstalled(d: Disk, plan: Plan, k: nat, before: seq<Entry>, manifest: seq<Entry>)
    requires plan.Valid() && d.Shaped() && k == |before| < |plan.targets| && AllInstalled(d, plan, before)
    requires Aligned(plan, manifest, manifest) && |manifest| == k + 1 && manifest[..k] == before
    requires InstalledMatches(Done(d, plan.targets[k], plan.candidate), manifest[k], plan.candidate)
    ensures AllInstalled(Done(d, plan.targets[k], plan.candidate), plan, manifest)
  {
    DonePins(d, plan.targets[k], plan.candidate);
    forall j | 0 <= j < k
      ensures InstalledMatches(Done(d, plan.targets[k], plan.candidate), manifest[j], plan.candidate)
    {
      assert manifest[j] == before[j] && manifest[j].target == plan.targets[j];
      PathIsNotCustody(plan, k, j);
    }
  }

  // ---- What a crash leaves, and the one unguarded moment ------------------------------

  /**
   At every crash point a target no outsider touched names the complete original or
   the complete candidate; when it names the candidate, the durable journal has its
   entry and a verified backup stands beside it.
   */
  lemma CrashLeavesWholeTargets(x: World, plan: Plan, k: nat)
    requires Safe(x, plan) && k < |plan.targets| && Untouched(x, plan.targets[k])
    ensures PinOf(x.disk, plan.targets[k].path).Some?
    ensures var pin, original := PinOf(x.disk, plan.targets[k].path).value, plan.targets[k].original;
            || pin.file == original.file
            || (pin.file.content == plan.candidate && k < |x.journal|
                && x.journal[k].install == pin && BackupOk(x.disk, x.journal[k]))
  {
    assert TargetSafe(x, plan, k);
  }

  /** A new process, set to roll back, on what a crash left. */
  function Restarted(x: World): World {
    x.(replaced := {}, checked := None, gaveUp := Some(x.faults))
  }

  /** A crashed run is recovered by rolling back its own journal, as a run of its own. */
  method RecoverCrashed(x: World, plan: Plan)
    returns (v: World, manifest: seq<Entry>, rolled: set<Path>, ghost trail: seq<World>)
    requires plan.Valid() && Safe(x, plan)
    ensures Safe(v, plan) && Traced(trail, v, plan) && trail[0] == Restarted(x)
    ensures Honest(v, plan) && TrulyRolled(rolled, manifest, trail, 1, 0) && Remedied(v, plan, manifest)
    ensures v.faults == x.faults ==> AllReported(x, v, plan, x.journal, 0, rolled) && v.journal == manifest
    ensures v.faults == x.faults || x.faults == x.budget ==> AllOriginal(v, plan)
  {
    InterferenceKeepsSafe(x, Restarted(x), plan);
    StartTrace(Restarted(x), plan);
    v, manifest, rolled, trail := UndoAll(Restarted(x), plan, x.journal, [Restarted(x)]);
    RunIsHonest(trail, v, plan, |trail| - 1);
    RunAccumulates(trail, v, plan);
    if v.faults == x.faults {
      RemediedFully(v, plan, manifest);
    }
  }

  // ---- What a run leaves on record --------------------------------------------------------

  /** The target's name means the same file, or the change is on record, or it was touched. */
  ghost predicate OnRecord(w: World, v: World, path: Path) {
    || PinOf(v.disk, path) == PinOf(w.disk, path) || path in v.touched
    || exists r :: r in v.replaced && r.path == path
  }

  /** Nothing is forgotten: touched names, replacements and failures only accumulate, within one budget. */
  predicate Accumulates(w: World, v: World) {
    w.touched <= v.touched && w.replaced <= v.replaced && w.faults <= v.faults
    && w.budget == v.budget && w.script == v.script
  }

  ghost predicate Recorded(w: World, v: World, plan: Plan, k: nat)
    requires k < |plan.targets|
  {
    Accumulates(w, v) && OnRecord(w, v, plan.targets[k].path)
  }

  lemma StepRecords(w: World, a: World, b: World, plan: Plan, k: nat)
    requires plan.Valid() && k < |plan.targets| && Recorded(w, a, plan, k)
    requires WorldStep(a, b, plan) && a.disk.Shaped()
    ensures Recorded(w, b, plan, k)
  {
    var path := plan.targets[k].path;
    if PinOf(a.disk, path) != PinOf(b.disk, path) && !Interferes(a, b) {
      ChangedByRename(a, b, plan, k);
      assert ReplacementAt(a, path) in b.replaced;
    } else {
      KeptOnRecord(w, a, b, path);
    }
  }

  lemma KeptOnRecord(w: World, a: World, b: World, path: Path)
    requires Accumulates(w, a) && OnRecord(w, a, path) && Accumulates(a, b)
    requires PinOf(b.disk, path) == PinOf(a.disk, path) || path in b.touched
    ensures Accumulates(w, b) && OnRecord(w, b, path)
  {
    if r :| r in a.replaced && r.path == path {
      assert r in b.replaced;
    }
  }

  lemma PathIsNotCustody(plan: Plan, j: nat, k: nat)
    requires plan.Valid() && j < |plan.targets| && k < |plan.targets|
    ensures plan.targets[k].path != plan.targets[j].backup && plan.targets[k].path != plan.targets[j].stage
    ensures j != k ==> plan.targets[k].path != plan.targets[j].path
  {
    assert j != k ==> plan.targets[k].path !in Custody(plan.targets[j]);
  }

  /** Only outsiders and renames change what a target's name means. */
  lemma ChangedByRename(a: World, b: World, plan: Plan, k: nat)
    requires plan.Valid() && k < |plan.targets| && WorldStep(a, b, plan) && a.disk.Shaped()
    requires PinOf(a.disk, plan.targets[k].path) != PinOf(b.disk, plan.targets[k].path)
    ensures Interferes(a, b) || Renames(a, b, plan, k)
  {
    if j :| 0 <= j < |plan.targets| && Creates(a, b, plan.targets[j]) {
      var t := plan.targets[j];
      var p :| p in {t.backup, t.stage} && b.disk == Created(a.disk, p, b.disk.files[a.disk.next]);
      PathIsNotCustody(plan, j, k);
      CreatedPins(a.disk, p, b.disk.files[a.disk.next]);
    } else if j :| 0 <= j < |plan.targets| && j != k && Renames(a, b, plan, j) {
      PathIsNotCustody(plan, j, k);
      var src := if a.gaveUp.None? then plan.targets[j].stage else plan.targets[j].backup;
      RenamedPins(a.disk, src, plan.targets[j].path);
    }
  }

  /** Over a whole run nothing is forgotten. */
  lemma RunAccumulates(trail: seq<World>, v: World, plan: Plan)
    requires Traced(trail, v, plan)
    ensures Accumulates(trail[0], v)
  {
    AlongTrace(StepOf(plan), (x: World, y: World) => Accumulates(x, y), trail, 0, |trail| - 1);
  }

  /** Over a whole run, every change of a target is either an outsider's or a rename on record. */
  lemma {:induction false} RunIsOnRecord(trail: seq<World>, v: World, plan: Plan, i: nat, k: nat)
    requires plan.Valid() && Traced(trail, v, plan) && i < |trail| && k < |plan.targets|
    ensures Recorded(trail[0], trail[i], plan, k)
    decreases i
  {
    if i > 0 {
      RunIsOnRecord(trail, v, plan, i - 1, k);
      assert Linked(StepOf(plan), trail, i) && GoodAt(SafeOf(plan), trail, i - 1);
      StepRecords(trail[0], trail[i - 1], trail[i], plan, k);
    }
  }

  // ---- The window between a check and its rename ----------------------------------------

  /** The file is nowhere on the disk any more. */
  ghost predicate Lost(d: Disk, pin: Pin) {
    forall p :: p in d.names ==> PinOf(d, p) != Some(pin)
  }

  /** A rename replaced what its check saw if and only if nobody changed the target since. */
  ghost predicate Fair(r: Replacement, plan: Plan, journal: seq<Entry>) {
    && (exists k :: 0 <= k < |plan.targets| && r.path == plan.targets[k].path
                    && (r.checked == plan.targets[k].original || (k < |journal| && r.checked == journal[k].install)))
    && (r.was == Some(r.checked) <==> r.path !in r.window)
  }

  /** Every rename of the run was fair, and what outsiders changed since a look is accounted for. */
  ghost predicate Honest(w: World, plan: Plan) {
    && (forall r :: r in w.replaced ==> Fair(r, plan, w.journal) && r.window <= w.touched)
    && (w.checked.Some? ==> Changed(w.checked.value.disk, w.disk) <= w.touched)
  }

  lemma RenameIsFair(a: World, b: World, plan: Plan, k: nat)
    requires k < |plan.targets| && Honest(a, plan) && Renames(a, b, plan, k)
    ensures Honest(b, plan)
  {
    assert Fair(ReplacementAt(a, plan.targets[k].path), plan, a.journal);
  }

  lemma StepIsHonest(a: World, b: World, plan: Plan)
    requires Honest(a, plan) && WorldStep(a, b, plan)
    ensures Honest(b, plan)
  {
    if k :| 0 <= k < |plan.targets| && Renames(a, b, plan, k) {
      RenameIsFair(a, b, plan, k);
    } else {
      forall r | r in b.replaced ensures Fair(r, plan, b.journal) {
        assert Fair(r, plan, a.journal);
      }
    }
  }

  lemma {:induction false} RunIsHonest(trail: seq<World>, v: World, plan: Plan, i: nat)
    requires Traced(trail, v, plan) && i < |trail| && trail[0].replaced == {} && trail[0].checked.None?
    ensures Honest(trail[i], plan)
    decreases i
  {
    if i > 0 {
      RunIsHonest(trail, v, plan, i - 1);
      assert Linked(StepOf(plan), trail, i);
      StepIsHonest(trail[i - 1], trail[i], plan);
    }
  }

  /** From the look at position `c` to position `i` only outsiders acted. */
  ghost predicate OnlyOutsidersSince(trail: seq<World>, c: nat, i: nat, t: Target) {
    && 0 < c <= i < |trail| && Checks(trail[c - 1], trail[c], t)
    && forall m :: c < m <= i ==> Interferes(trail[m - 1], trail[m])
  }

  /** Whenever a look counts, it is on the trail, and only outsiders acted since. */
  lemma {:induction false} LookIsOnTrail(trail: seq<World>, v: World, plan: Plan, i: nat) returns (c: nat, k: nat)
    requires Traced(trail, v, plan) && trail[0].checked.None? && i < |trail| && trail[i].checked.Some?
    ensures k < |plan.targets| && OnlyOutsidersSince(trail, c, i, plan.targets[k])
    ensures trail[i].checked == Some(Seen(plan.targets[k].path, trail[c].disk))
    decreases i
  {
    assert Linked(StepOf(plan), trail, i);
    LookIsKept(trail[i - 1], trail[i], plan);
    if Interferes(trail[i - 1], trail[i]) {
      c, k := LookIsOnTrail(trail, v, plan, i - 1);
      StillOnlyOutsiders(trail, c, i, plan.targets[k]);
    } else {
      c := i;
      k :| 0 <= k < |plan.targets| && Checks(trail[i - 1], trail[i], plan.targets[k]);
    }
  }

  /** Only looking makes a look, and only outsiders leave one standing. */
  lemma LookIsKept(a: World, b: World, plan: Plan)
    requires WorldStep(a, b, plan) && b.checked.Some?
    ensures || (Interferes(a, b) && b.checked == a.checked)
            || exists k :: 0 <= k < |plan.targets| && Checks(a, b, plan.targets[k])
  {
  }

  lemma StillOnlyOutsiders(trail: seq<World>, c: nat, i: nat, t: Target)
    requires 0 < i < |trail| && OnlyOutsidersSince(trail, c, i - 1, t) && Interferes(trail[i - 1], trail[i])
    ensures OnlyOutsidersSince(trail, c, i, t)
  {
    forall m | c < m <= i ensures Interferes(trail[m - 1], trail[m]) {
    }
  }

  /**
   The rename at position `i` over target `k` follows a look at `c` that saw what the run
   expects there, with only outsiders in between, and the record says so. What it replaced
   is another file only if an outsider put it there after the look.
   */
  ghost predicate ReplacedAfterLook(trail: seq<World>, plan: Plan, i: nat, k: nat, c: nat)
    requires k < |plan.targets| && c < i < |trail|
  {
    var path, seen, found := plan.targets[k].path, trail[c].disk, trail[i - 1].disk;
    && OnlyOutsidersSince(trail, c, i - 1, plan.targets[k])
    && PinOf(seen, path).Some? && Expected(PinOf(seen, path).value, trail[i - 1], plan, k)
    && Replacement(path, PinOf(seen, path).value, PinOf(found, path), Changed(seen, found)) in trail[i].replaced
    && (PinOf(found, path) != PinOf(seen, path) ==>
          path in trail[i].touched && exists m :: c < m < i && path in Changed(trail[m - 1].disk, trail[m].disk))
  }

  lemma {:induction false} LeftInPlace(trail: seq<World>, c: nat, i: nat, t: Target)
    requires OnlyOutsidersSince(trail, c, i, t) && PinOf(trail[i].disk, t.path) != PinOf(trail[c].disk, t.path)
    ensures t.path in trail[i].touched
    ensures exists m :: c < m <= i && t.path in Changed(trail[m - 1].disk, trail[m].disk)
    decreases i
  {
    assert Interferes(trail[i - 1], trail[i]);
    if PinOf(trail[i - 1].disk, t.path) != PinOf(trail[c].disk, t.path) {
      LeftInPlace(trail, c, i - 1, t);
    } else {
      assert t.path in Changed(trail[i - 1].disk, trail[i].disk);
    }
  }

  /**
   Over a whole run: whenever a target's name changes its meaning, outsiders did it, or
   this run's rename did after a look that saw the original or its own install.
   */
  lemma ForeignReplacedOnlyInWindow(trail: seq<World>, v: World, plan: Plan, i: nat, k: nat)
    requires plan.Valid() && Traced(trail, v, plan) && trail[0].checked.None?
    requires 0 < i < |trail| && k < |plan.targets|
    requires PinOf(trail[i - 1].disk, plan.targets[k].path) != PinOf(trail[i].disk, plan.targets[k].path)
    ensures Interferes(trail[i - 1], trail[i]) || exists c :: 0 < c < i && ReplacedAfterLook(trail, plan, i, k, c)
  {
    assert Linked(StepOf(plan), trail, i) && GoodAt(SafeOf(plan), trail, i - 1);
    ChangedByRename(trail[i - 1], trail[i], plan, k);
    if !Interferes(trail[i - 1], trail[i]) {
      var c, j := LookIsOnTrail(trail, v, plan, i - 1);
      if j != k { PathIsNotCustody(plan, j, k); }
      var t := plan.targets[k];
      if PinOf(trail[i - 1].disk, t.path) != PinOf(trail[c].disk, t.path) { LeftInPlace(trail, c, i - 1, t); }
      assert ReplacedAfterLook(trail, plan, i, k, c);
    }
  }

  /**
   The restore's check passed on `w`, outsiders turned it into `u`, the rename follows.
   What it replaces is foreign if and only if they changed the target in between, and
   it is destroyed if and only if it has no other name.
   */
  lemma RestoreInWindow(w: World, u: World, e: Entry, candidate: Content)
    requires InstalledMatches(w.disk, e, candidate) && Interferes(w, u)
    requires e.target.path in u.disk.names && e.target.backup in u.disk.names
    requires u.disk.names[e.target.path] != u.disk.names[e.target.backup]
    ensures var pin := PinOf(u.disk, e.target.path).value;
            && (pin != e.install <==> e.target.path in Changed(w.disk, u.disk))
            && (Lost(Renamed(u.disk, e.target.backup, e.target.path), pin) <==> Links(u.disk, pin.ino) == 1)
  {
    var path := e.target.path;
    var pin := PinOf(u.disk, path).value;
    var after := Renamed(u.disk, e.target.backup, path);
    var names := set p | p in u.disk.names && u.disk.names[p] == pin.ino;
    assert names == {path} + (names - {path});
    if p :| p in names && p != path {
      assert p in after.names && PinOf(after, p) == Some(pin);
    } else {
      assert names == {path};
      forall p | p in after.names ensures PinOf(after, p) != Some(pin) {
        assert p != path ==> p in u.disk.names && p !in names;
      }
    }
  }

  /** From every world on which the check passes, an outsider can lose any file that way. */
  lemma OpenWindowLosesForeignFile(w: World, e: Entry, candidate: Content, foreign: File) returns (x: World, u: World)
    requires w.disk.Shaped() && InstalledMatches(w.disk, e, candidate) && BackupOk(w.disk, e)
    requires e.target.path != e.target.backup
    ensures x == w.(script := x.script) && Interferes(x, u) && u.touched == w.touched + {e.target.path}
    ensures PinOf(u.disk, e.target.path) == Some(Pin(w.disk.next, foreign)) && BackupOk(u.disk, e)
    ensures Lost(Renamed(u.disk, e.target.backup, e.target.path), Pin(w.disk.next, foreign))
  {
    var d, path := w.disk, e.target.path;
    var moved := Disk(d.names[path := d.next], d.files[d.next := foreign], d.next + 1);
    x := w.(script := seq(w.tick + 1, _ => moved));
    u := x.(disk := moved, touched := w.touched + {path}, tick := w.tick + 1);
    assert forall p :: p in d.names && p != path ==> PinOf(moved, p) == PinOf(d, p);
    assert Changed(d, moved) == {path};
    assert x.Outside() == moved;
  }
}
