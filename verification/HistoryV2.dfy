/**
 Publication into the two-bank store. Every disk operation may fail, and every
 disk it passes through is added to `trail`, the points at which the machine may
 have stopped, in order and one step apart.
 */
module HistoryV2 {
  import opened Basics
  import opened HistoryDisk
  import opened HistoryAnchor
  import opened HistoryStages
  import opened HistoryTrace

  /**
   The v2 files, what this worker knows of them, and how many operations have failed.
   On a `steady` machine none does.
   */
  datatype V2 = V2(disk: Disk, persisted: Option<Commit>, markerPublished: bool, freshId: nat,
                   cleanStart: bool, faults: nat, steady: bool)
  {
    ghost predicate Ok(cap: nat, stream: seq<Byte>) {
      && Holds(disk, persisted, cap, stream, cleanStart, freshId)
      && markerPublished == persisted.Some?
    }

    ghost function Point(cap: nat, stream: seq<Byte>): CrashPoint {
      CrashPoint(disk, persisted, cap, stream, cleanStart, freshId)
    }

    /** Only the files and the fault count differ. */
    predicate SameKnowledge(w: V2) {
      w == this.(disk := w.disk, faults := w.faults)
    }

    /** The run went on from `trail` to `more`, and all the while the worker knew what it knows now. */
    ghost predicate Extends(trail: seq<CrashPoint>, more: seq<CrashPoint>) {
      && trail <= more
      && forall j :: |trail| <= j < |more| ==> more[j].persisted == persisted && more[j].cleanStart == cleanStart
    }

    /** An operation failed on the way to `w`. */
    predicate Faulted(w: V2) {
      faults < w.faults && !steady
    }

    /** A marker of an earlier attempt is visible, so no first commit can be acknowledged. */
    predicate Wedged() {
      persisted.None? && disk.marker.now.Some?
    }
  }

  /** An empty directory, before anything was published. */
  const EMPTY_STORE := V2(Disk([Versions(None, {}), Versions(None, {})], [Versions(None, {}), Versions(None, {})],
                               Versions(None, {})), None, false, 0, true, 0, false)

  /** An operation that fails without changing anything. */
  method Probe(v: V2) returns (w: V2, ok: bool)
    ensures w == v.(faults := w.faults)
    ensures if ok then w == v else v.Faulted(w)
  {
    ok := v.steady;
    if !ok { ok := *; }
    w := if ok then v else v.(faults := v.faults + 1);
  }

  /**
   `write_atomically` with `renamed` as the disk after its rename: it can fail
   before the rename, fail in the directory sync after it, or succeed.
   */
  method WriteAtomically(v: V2, renamed: Disk, ghost cap: nat, ghost stream: seq<Byte>,
                         ghost trail: seq<CrashPoint>)
    returns (w: V2, ok: bool, ghost trail': seq<CrashPoint>)
    requires Traced(trail, v.Point(cap, stream)) && |renamed.banks| == BANK_COUNT && |renamed.commits| == COMMIT_COUNT
    requires v.(disk := renamed).Ok(cap, stream) && v.(disk := renamed.Settled()).Ok(cap, stream)
    requires PointStep(v.Point(cap, stream), v.(disk := renamed).Point(cap, stream))
    ensures Traced(trail', w.Point(cap, stream)) && v.Extends(trail, trail') && v.SameKnowledge(w)
    ensures ok ==> w == v.(disk := renamed.Settled())
    ensures !ok ==> (w.disk == v.disk || w.disk == renamed) && v.Faulted(w)
  {
    trail' := trail;
    w, ok := Probe(v);
    if !ok { return; }
    w := v.(disk := renamed);
    TraceOn(trail', v.Point(cap, stream), w.Point(cap, stream));
    trail' := trail' + [w.Point(cap, stream)];
    ghost var u := w;
    w, ok := Probe(w);
    if !ok { return; }
    w := v.(disk := renamed.Settled());
    TraceOn(trail', u.Point(cap, stream), w.Point(cap, stream));
    trail' := trail' + [w.Point(cap, stream)];
    ok := true;
  }

  /** `publish_commit`. */
  method PublishCommit(v: V2, next: Commit, ghost cap: nat, ghost stream: seq<Byte>, ghost trail: seq<CrashPoint>)
    returns (w: V2, ok: bool, ghost trail': seq<CrashPoint>)
    requires Traced(trail, v.Point(cap, stream)) && v.Ok(cap, stream)
    requires NextCommit(v.disk, v.persisted, cap, stream, v.freshId, next)
    requires v.persisted.None? && v.cleanStart ==> Untouched(v.disk)
    ensures Traced(trail', w.Point(cap, stream)) && v.Extends(trail, trail') && v.SameKnowledge(w) && w.Ok(cap, stream)
    ensures ok ==> w == v.(disk := WithCommit(v.disk, next).Settled())
    ensures !ok ==> v.Faulted(w)
    ensures w.disk.marker.now == v.disk.marker.now
  {
    trail' := trail;
    StageCommit(v.disk, v.persisted, cap, stream, v.cleanStart, v.freshId, next);
    w, ok := Probe(v);
    assert RenamesCommit(v.Point(cap, stream), v.(disk := WithCommit(v.disk, next)).Point(cap, stream),
                         next.generation % COMMIT_COUNT);
    if ok { w, ok, trail' := WriteAtomically(w, WithCommit(v.disk, next), cap, stream, trail'); }
  }

  /** `ensure_marker_published`, for the first commit of a store. */
  method PublishMarker(v: V2, c: Commit, ghost cap: nat, ghost stream: seq<Byte>, ghost trail: seq<CrashPoint>)
    returns (w: V2, r: Result<()>, ghost trail': seq<CrashPoint>)
    requires Traced(trail, v.Point(cap, stream)) && v.Ok(cap, stream) && v.persisted.None?
    requires Early(v.disk, cap, v.freshId) && c.storeId < v.freshId && v.disk.commits[1] == Versions(Some(c), {})
    requires FirstCommitOf(v.disk, c, cap, stream) && (v.cleanStart ==> FirstHeld(v.disk, c, cap, stream))
    requires v.disk.marker.now != Some(c.storeId)
    ensures Traced(trail', w.Point(cap, stream)) && v.Extends(trail, trail') && v.faults <= w.faults
    ensures r.Ok? ==> v.SameKnowledge(w.(markerPublished := false)) && w.markerPublished
                      && Anchored(w.disk, c, cap, stream) && w.faults == v.faults
    ensures r.Err? ==> v.SameKnowledge(w) && w.Ok(cap, stream) && (v.Faulted(w) || v.Wedged())
    ensures v.Wedged() ==> r.Err? && w.disk == v.disk
  {
    trail' := trail;
    var ok;
    w, ok := Probe(v);
    if !ok { return w, Err("read history marker"), trail'; }
    if v.disk.marker.now.Some? {
      return w, Err("history marker does not match the committed history store"), trail';
    }
    StageMarker(v.disk, cap, stream, v.cleanStart, v.freshId, c);
    w, ok, trail' := WriteAtomically(v, WithMarker(v.disk, c.storeId), cap, stream, trail');
    if !ok { return w, Err("publish history marker"), trail'; }
    return w.(markerPublished := true), Ok(()), trail';
  }

  /** Publish the commit, then the marker unless this worker already did. */
  method Seal(v: V2, next: Commit, ghost cap: nat, ghost stream: seq<Byte>, ghost trail: seq<CrashPoint>)
    returns (w: V2, r: Result<()>, ghost trail': seq<CrashPoint>)
    requires Traced(trail, v.Point(cap, stream)) && v.Ok(cap, stream)
    requires NextCommit(v.disk, v.persisted, cap, stream, v.freshId, next)
    requires v.persisted.None? ==> v.disk.marker.now != Some(next.storeId) && (v.cleanStart ==> Untouched(v.disk))
    ensures Traced(trail', w.Point(cap, stream)) && v.Extends(trail, trail')
    ensures Sealed(v, w, r, next, cap, stream)
  {
    StageCommit(v.disk, v.persisted, cap, stream, v.cleanStart, v.freshId, next);
    var ok;
    w, ok, trail' := PublishCommit(v, next, cap, stream, trail);
    if !ok { return w, Err("publish history commit"), trail'; }
    if w.markerPublished { return w, Ok(()), trail'; }
    w, r, trail' := PublishMarker(w, next, cap, stream, trail');
  }

  /** The outcome of a publication: `next` is durable, or what was acknowledged still is. */
  ghost predicate Sealed(v: V2, w: V2, r: Result<()>, next: Commit, cap: nat, stream: seq<Byte>) {
    && v.SameKnowledge(w.(markerPublished := v.markerPublished)) && v.faults <= w.faults
    && (r.Ok? ==> Anchored(w.disk, next, cap, stream) && w.markerPublished)
    && (r.Err? ==> w.Ok(cap, stream) && (v.Faulted(w) || v.Wedged() || next.generation > U64_MAX))
    && (v.Wedged() ==> r.Err? && w.disk.marker.now == v.disk.marker.now)
  }

  /** Why a publication may fail: a failed operation, a marker of an earlier attempt, an exhausted counter. */
  predicate Excused(was: V2, now: V2) {
    || was.Faulted(now) || was.Wedged()
    || (was.persisted.Some? && (was.persisted.value.generation >= U64_MAX
                                || was.persisted.value.bankGeneration >= U64_MAX))
  }

  /** The counters of the acknowledged commit are 64-bit numbers. */
  predicate CountersFit(persisted: Option<Commit>) {
    persisted.Some? ==> persisted.value.generation <= U64_MAX && persisted.value.bankGeneration <= U64_MAX
  }

  /** The counters of `next` fit, the second unless it was taken over. */
  predicate Counted(v: V2, next: Commit) {
    && next.generation <= U64_MAX
    && (next.bankGeneration <= U64_MAX
        || (v.persisted.Some? && next.bankGeneration == v.persisted.value.bankGeneration))
  }

  /** What a publication of `next` reports: it is anchored, or nothing that was acknowledged is lost. */
  ghost predicate Published(v: V2, w: V2, r: Result<()>, next: Commit, cap: nat, stream: seq<Byte>) {
    && w.persisted == v.persisted && w.steady == v.steady
    && (r.Ok? ==> Anchored(w.disk, next, cap, stream) && w.markerPublished && Counted(v, next))
    && (r.Err? ==> w.Ok(cap, stream) && Excused(v, w))
    && (v.Wedged() ==> r.Err? && w.Wedged())
  }

  // ---- Append in place ----------------------------------------------------

  /** One change of the open bank: a truncation, a partial write or a data sync. */
  method ChangeBank(v: V2, c: Commit, f: BankFile, ghost cap: nat, ghost stream: seq<Byte>,
                    ghost trail: seq<CrashPoint>)
    returns (w: V2, ghost trail': seq<CrashPoint>)
    requires Traced(trail, v.Point(cap, stream)) && v.Ok(cap, stream) && v.persisted == Some(c) && Carries(f, c, cap)
    requires v.disk.banks[c.dataSlot].now.Some? && OpenStep(v.disk.banks[c.dataSlot].now.value, f)
    ensures Traced(trail', w.Point(cap, stream)) && v.Extends(trail, trail')
    ensures w == v.(disk := WithOpenBank(v.disk, c.dataSlot, f)) && w.Ok(cap, stream)
  {
    OpenBankKeepsAnchor(v.disk, c, cap, stream, f);
    w := v.(disk := WithOpenBank(v.disk, c.dataSlot, f));
    assert ChangesOpenBank(v.Point(cap, stream), w.Point(cap, stream), c.dataSlot);
    TraceOn(trail, v.Point(cap, stream), w.Point(cap, stream));
    trail' := trail + [w.Point(cap, stream)];
  }

  /** Write the queue after the committed prefix: the write may stop short, the data sync may fail. */
  method WritePending(v: V2, c: Commit, f: BankFile, pending: seq<Byte>, ghost cap: nat, ghost stream: seq<Byte>,
                      ghost trail: seq<CrashPoint>)
    returns (w: V2, ok: bool, ghost trail': seq<CrashPoint>)
    requires Traced(trail, v.Point(cap, stream)) && v.Ok(cap, stream) && v.persisted == Some(c)
    requires Carries(f, c, cap) && f.bank.payload == c.digest.of && |f.bank.payload| + |pending| <= 2 * cap
    requires v.disk.banks[c.dataSlot].now == Some(f)
    ensures Traced(trail', w.Point(cap, stream)) && v.Extends(trail, trail') && v.SameKnowledge(w) && w.Ok(cap, stream)
    ensures ok ==> w == v.(disk := WithOpenBank(v.disk, c.dataSlot, Synced(Written(f, pending))))
    ensures !ok ==> v.Faulted(w)
  {
    var written := |pending|;
    if !v.steady { written :| 0 <= written <= |pending|; }
    WrittenIsStep(f, pending[..written]);
    w, trail' := ChangeBank(v, c, Written(f, pending[..written]), cap, stream, trail);
    if written < |pending| { return w.(faults := w.faults + 1), false, trail'; }
    assert pending[..written] == pending;
    w, ok := Probe(w);
    WrittenIsStep(Written(f, pending), []);
    if ok { w, trail' := ChangeBank(w, c, Synced(Written(f, pending)), cap, stream, trail'); }
  }

  /** Truncate the bank to its committed prefix, append the queue, sync the data. */
  method WriteOpenBank(v: V2, c: Commit, pending: seq<Byte>, cap: nat, ghost stream: seq<Byte>,
                       ghost trail: seq<CrashPoint>)
    returns (w: V2, ok: bool, ghost trail': seq<CrashPoint>)
    requires Traced(trail, v.Point(cap, stream)) && v.Ok(cap, stream) && v.persisted == Some(c)
    requires c.committedLen + |pending| <= 2 * cap
    ensures Traced(trail', w.Point(cap, stream)) && v.Extends(trail, trail') && v.SameKnowledge(w) && w.Ok(cap, stream)
    ensures ok ==> w.faults == v.faults && BankHolds(w.disk, AppendedCommit(c, cap, |stream|, pending))
    ensures !ok ==> v.Faulted(w)
  {
    trail' := trail;
    w, ok := Probe(v);
    if !ok { return; }
    var f := v.disk.banks[c.dataSlot].now.value;
    // Neither physical-size error of the source can occur.
    assert BANK_HEADER_BYTES + c.committedLen <= PhysicalLen(f.bank) <= BANK_HEADER_BYTES + 2 * cap;
    OpenBankStages(f, c, cap, pending);
    if |f.bank.payload| != c.committedLen {
      w, ok := Probe(w);
      if !ok { return; }
      w, trail' := ChangeBank(w, c, Truncated(f, c.committedLen), cap, stream, trail');
    }
    assert |f.bank.payload| == c.committedLen ==> f.bank.payload[..c.committedLen] == f.bank.payload;
    assert w.disk.banks[c.dataSlot].now == Some(Truncated(f, c.committedLen));
    w, ok, trail' := WritePending(w, c, Truncated(f, c.committedLen), pending, cap, stream, trail');
  }

  /** `publish_append` up to its acknowledgement. */
  method AppendAndSeal(v: V2, c: Commit, pending: seq<Byte>, cap: nat, observedEnd: nat, ghost stream: seq<Byte>,
                       ghost trail: seq<CrashPoint>)
    returns (w: V2, r: Result<()>, ghost trail': seq<CrashPoint>)
    requires Traced(trail, v.Point(cap, stream)) && v.Ok(cap, stream) && v.persisted == Some(c)
    requires c.committedLen + |pending| <= 2 * cap && observedEnd == |stream|
    requires Faithful(AppendedCommit(c, cap, observedEnd, pending), cap, stream)
    ensures Traced(trail', w.Point(cap, stream)) && v.Extends(trail, trail')
    ensures Published(v, w, r, AppendedCommit(c, cap, observedEnd, pending), cap, stream)
  {
    var next := AppendedCommit(c, cap, observedEnd, pending);
    var ok;
    w, ok, trail' := WriteOpenBank(v, c, pending, cap, stream, trail);
    if !ok { return w, Err("append history payload"), trail'; }
    if next.generation > U64_MAX { return w, Err("history commit generation overflow"), trail'; }
    w, r, trail' := Seal(w, next, cap, stream, trail');
  }

  // ---- Compaction ----------------------------------------------------------

  /** The commit of the next compaction; a first one takes a store id that no file carries. */
  function CompactionOf(v: V2, cap: nat, observedEnd: nat, snapshot: seq<Byte>): Commit {
    match v.persisted
    case Some(c) => CompactedCommit(c.storeId, c.generation + 1, c.bankGeneration + 1,
                                    (c.dataSlot + 1) % BANK_COUNT, cap, observedEnd, snapshot)
    case None => CompactedCommit(v.freshId, 1, 1, 0, cap, observedEnd, snapshot)
  }

  /** The bank that a compaction publishes. */
  function SnapshotBank(next: Commit, snapshot: seq<Byte>): BankFile {
    BankFile(Bank(HeaderOf(next), snapshot), |snapshot|, |snapshot|)
  }

  /** `publish_compaction` up to its acknowledgement. */
  method CompactAndSeal(v: V2, cap: nat, observedEnd: nat, snapshot: seq<Byte>, ghost stream: seq<Byte>,
                        ghost trail: seq<CrashPoint>)
    returns (w: V2, r: Result<()>, ghost trail': seq<CrashPoint>)
    requires Traced(trail, v.Point(cap, stream)) && v.Ok(cap, stream)
    requires observedEnd == |stream| && snapshot == Last(stream, cap)
    requires v.persisted.None? && v.cleanStart ==> Untouched(v.disk)
    ensures Traced(trail', w.Point(cap, stream)) && v.Extends(trail, trail')
    ensures Published(v, w, r, CompactionOf(v, cap, observedEnd, snapshot), cap, stream)
  {
    trail' := trail;
    var next := CompactionOf(v, cap, observedEnd, snapshot);
    if next.bankGeneration > U64_MAX { return v, Err("history bank generation overflow"), trail'; }
    CompactedFaithful(next.storeId, next.generation, next.bankGeneration, next.dataSlot, cap, stream);
    w, trail' := TakeId(v, cap, stream, trail);
    w, r, trail' := CompactInto(w, next, snapshot, cap, stream, trail');
  }

  /** A first commit uses up a store id. */
  method TakeId(v: V2, ghost cap: nat, ghost stream: seq<Byte>, ghost trail: seq<CrashPoint>)
    returns (w: V2, ghost trail': seq<CrashPoint>)
    requires Traced(trail, v.Point(cap, stream)) && v.Ok(cap, stream)
    ensures Traced(trail', w.Point(cap, stream)) && v.Extends(trail, trail') && w.Ok(cap, stream)
    ensures w == if v.persisted.None? then v.(freshId := v.freshId + 1) else v
  {
    w := if v.persisted.None? then v.(freshId := v.freshId + 1) else v;
    TraceOn(trail, v.Point(cap, stream), w.Point(cap, stream));
    trail' := trail + [w.Point(cap, stream)];
  }

  /** `next` follows the acknowledged commit into the other bank, or is a first one under an unused store id. */
  ghost predicate Succeeds(v: V2, next: Commit)
    requires |v.disk.commits| == COMMIT_COUNT
  {
    match v.persisted
    case Some(c) =>
      && next.generation == c.generation + 1 && next.storeId == c.storeId
      && next.bankGeneration == c.bankGeneration + 1
      && next.streamEnd >= c.streamEnd && next.dataSlot != c.dataSlot
    case None =>
      && next.generation == 1 && next.storeId < v.freshId && next.dataSlot == 0
      && v.disk.marker.now != Some(next.storeId) && (v.cleanStart ==> Untouched(v.disk))
  }

  /** Write the snapshot into the bank that the acknowledged commit does not name, and commit it. */
  method CompactInto(v: V2, next: Commit, snapshot: seq<Byte>, ghost cap: nat, ghost stream: seq<Byte>,
                     ghost trail: seq<CrashPoint>)
    returns (w: V2, r: Result<()>, ghost trail': seq<CrashPoint>)
    requires Traced(trail, v.Point(cap, stream)) && v.Ok(cap, stream) && Faithful(next, cap, stream)
    requires next.committedLen == |snapshot| <= 2 * cap && next.digest == Digest(snapshot)
    requires Succeeds(v, next)
    ensures Traced(trail', w.Point(cap, stream)) && v.Extends(trail, trail')
    ensures Sealed(v, w, r, next, cap, stream) && (r.Ok? ==> next.generation <= U64_MAX)
  {
    var ok;
    w, ok, trail' := PublishBank(v, next, snapshot, cap, stream, trail);
    if !ok { return w, Err("publish history data bank"), trail'; }
    if next.generation > U64_MAX { return w, Err("history commit generation overflow"), trail'; }
    w, r, trail' := Seal(w, next, cap, stream, trail');
  }

  /** Inspect the bank, then replace it with the snapshot. */
  method PublishBank(v: V2, next: Commit, snapshot: seq<Byte>, ghost cap: nat, ghost stream: seq<Byte>,
                     ghost trail: seq<CrashPoint>)
    returns (w: V2, ok: bool, ghost trail': seq<CrashPoint>)
    requires Traced(trail, v.Point(cap, stream)) && v.Ok(cap, stream) && Faithful(next, cap, stream)
    requires next.committedLen == |snapshot| <= 2 * cap && next.digest == Digest(snapshot)
    requires Succeeds(v, next)
    ensures Traced(trail', w.Point(cap, stream)) && v.Extends(trail, trail') && v.SameKnowledge(w) && w.Ok(cap, stream)
    ensures w.disk.marker.now == v.disk.marker.now
    ensures ok ==> w.faults == v.faults && NextCommit(w.disk, w.persisted, cap, stream, w.freshId, next)
                   && (w.persisted.None? && w.cleanStart ==> Untouched(w.disk))
    ensures !ok ==> v.Faulted(w)
  {
    trail' := trail;
    w, ok := Probe(v);
    if !ok { return; }
    var f := SnapshotBank(next, snapshot);
    StageBank(v.disk, v.persisted, cap, stream, v.cleanStart, v.freshId, next.dataSlot, f);
    assert RenamesBank(v.Point(cap, stream), v.(disk := WithBank(v.disk, next.dataSlot, f)).Point(cap, stream),
                       next.dataSlot);
    w, ok, trail' := WriteAtomically(v, WithBank(v.disk, next.dataSlot, f), cap, stream, trail');
  }
}
