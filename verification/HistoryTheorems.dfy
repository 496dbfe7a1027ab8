/** What the durable history store guarantees to its readers. */
module HistoryTheorems {
  import opened Basics
  import opened HistoryDisk
  import opened HistoryAnchor
  import opened HistoryStages
  import opened HistoryV2
  import opened HistoryTrace
  import opened HistoryStore

  lemma HeldRecovers(p: CrashPoint, img: Image, limit: nat)
    requires p.Held() && Promised(p) && CrashImage(p.disk, img)
    ensures Meets(Recover(img, limit), p.cap, p.stream, EndOf(p.persisted), p.persisted.Some?, limit)
  {
    match p.persisted {
      case Some(c) => AnchoredRecovers(p.disk, c, p.cap, p.stream, img, limit);
      case None =>
        if Untouched(p.disk) {
          UntouchedRecovers(p.disk, p.cap, p.stream, img, limit);
        } else {
          var c :| FirstHeld(p.disk, c, p.cap, p.stream);
          FirstHeldRecovers(p.disk, c, p.cap, p.stream, img, limit);
        }
    }
  }

  /**
   Crash safety over whole runs: stop any run at any point `j`, lose or garble whatever
   was not synced, and a reader gets a commit at or past everything acknowledged at that
   point or before it, with exactly the last bytes of the stream observed by then.
   */
  lemma EveryCrashRecovers(h: History, i: nat, j: nat, img: Image, limit: nat)
    requires h.Valid() && i <= j < |h.trail| && Promised(h.trail[j]) && CrashImage(h.trail[j].disk, img)
    ensures var earlier, p := h.trail[i].persisted, h.trail[j];
            Meets(Recover(img, limit), p.cap, p.stream, EndOf(earlier), earlier.Some?, limit)
  {
    var last := h.v2.Point(h.cap, h.stream);
    TracedIsHeld(h.trail, last, j);
    HeldRecovers(h.trail[j], img, limit);
    AcknowledgedGrows(h.trail, last, i, j);
  }

  /** Recovery is promised at every point of a run before it retries a first commit, and after any commit. */
  lemma PromisedUnlessRetried(h: History, j: nat)
    requires h.Valid() && j < |h.trail| && !Promised(h.trail[j])
    ensures h.trail[j].persisted.None? && exists i :: 0 < i <= j && Retries(h.trail[i - 1], h.trail[i])
  {
    UnpromisedOnlyAfterRetry(h.trail, h.v2.Point(h.cap, h.stream), j);
  }

  /** Right after a successful flush a crash costs nothing: the reader gets the last bytes of the whole stream. */
  lemma FlushedStreamSurvives(h: History, img: Image, limit: nat)
    requires h.Valid() && !h.dirty && h.v2.persisted.Some? && CrashImage(h.v2.disk, img)
    ensures var r := Recover(img, limit);
            r.Ok? && r.value.Some? && r.value.value.commit.streamEnd == |h.stream|
            && r.value.value.tail == Last(h.stream, Min(limit, h.cap))
  {
    var j := |h.trail| - 1;
    EveryCrashRecovers(h, j, j, img, limit);
    assert h.stream[..|h.stream|] == h.stream;
  }

  /** What a reader asks for, within what one frame can carry. */
  function Asked(requested: Option<nat>): nat {
    if requested.Some? then Min(requested.value, MAX_HISTORY_BYTES) else MAX_HISTORY_BYTES
  }

  /** After a successful flush the post-mortem read returns the last bytes of everything ever appended. */
  lemma FlushedTailIsRead(h: History, img: Image, requested: Option<nat>)
    requires h.Valid() && !h.dirty && h.v2.persisted.Some? && CrashImage(h.v2.disk, img)
    ensures ReadTail(img, requested) == Ok(Last(h.stream, Min(Asked(requested), h.cap)))
  {
    FlushedStreamSurvives(h, img, Asked(requested));
  }

  /** `tail` is the last bytes of the stream up to some position that was observed, at or past `end`. */
  ghost predicate TailPast(tail: seq<Byte>, stream: seq<Byte>, end: nat, n: nat) {
    exists at :: end <= at <= |stream| && tail == Last(stream[..at], n)
  }

  /**
   The same at every promised point `j` of a run: the read succeeds with the last bytes of
   the stream at or past everything acknowledged by then. Only if nothing was, it may come
   from the raw file.
   */
  lemma EveryCrashReads(h: History, i: nat, j: nat, img: Image, requested: Option<nat>)
    requires h.Valid() && i <= j < |h.trail| && Promised(h.trail[j]) && CrashImage(h.trail[j].disk, img)
    ensures var earlier, p, r := h.trail[i].persisted, h.trail[j], ReadTail(img, requested);
            && r.Ok?
            && (|| TailPast(r.value, p.stream, EndOf(earlier), Min(Asked(requested), p.cap))
                || (earlier.None? && r.value == LastOfRaw(img, Asked(requested))))
  {
    EveryCrashRecovers(h, i, j, img, Asked(requested));
    var r := Recover(img, Asked(requested)).value;
    if r.Some? {
      var at := r.value.commit.streamEnd;
      assert r.value.tail == Last(h.trail[j].stream[..at], Min(Asked(requested), h.trail[j].cap));
    }
  }

  /** The last bytes of the raw file, or none without one. */
  function LastOfRaw(img: Image, n: nat): seq<Byte> {
    match img.raw
    case Some(bytes) => Last(bytes, n)
    case None => []
  }

  /** A store without marker and commits is an older one: the raw file is read, unless a bank is oversized. */
  lemma LegacyIsRead(img: Image, requested: Option<nat>)
    requires img.Shaped() && img.marker.None? && img.commits[0].None? && img.commits[1].None?
    ensures if Oversized(img.banks[0]) || Oversized(img.banks[1]) then ReadTail(img, requested).Err?
            else ReadTail(img, requested) == Ok(LastOfRaw(img, Asked(requested)))
  {
  }

  /** The bytes ever written to the banks are at most twice the bytes observed, and no bank outgrows its bound. */
  lemma WritesAreAmortised(h: History)
    requires h.Valid()
    ensures h.dataBytesWritten <= 2 * h.durableEnd <= 2 * |h.stream|
    ensures h.v2.persisted.Some? ==> h.v2.persisted.value.committedLen <= 2 * h.cap
    ensures forall i :: 0 < i < |h.compactions| ==> h.compactions[i] - h.compactions[i - 1] > h.cap
  {
    match h.v2.persisted {
      case None =>
      case Some(c) => assert Spaced(h.compactions, h.cap);
    }
  }

  /** Recovery answers with a usable commit of the highest generation. */
  lemma RecoverTakesNewest(img: Image, limit: nat, slot: nat)
    requires img.Shaped() && slot < COMMIT_COUNT && Usable(img, slot) && Recover(img, limit).Ok?
    ensures var r := Recover(img, limit).value;
            && r.Some? && r.value.commit.generation >= CommitAt(img, slot).generation
            && (exists s :: 0 <= s < COMMIT_COUNT && Usable(img, s) && CommitAt(img, s) == r.value.commit
                            && r.value.tail == TailOf(img, CommitAt(img, s), limit))
  {
  }

  lemma RecoverIgnoresRaw(img: Image, other: Image, limit: nat)
    requires img.Shaped() && other == img.(raw := other.raw)
    ensures Recover(img, limit) == Recover(other, limit)
  {
    SlotIgnoresRaw(img, other, limit, 0);
    SlotIgnoresRaw(img, other, limit, 1);
  }

  lemma SlotIgnoresRaw(img: Image, other: Image, limit: nat, slot: nat)
    requires img.Shaped() && other == img.(raw := other.raw) && slot < COMMIT_COUNT
    ensures Usable(img, slot) == Usable(other, slot)
    ensures Usable(img, slot) ==>
              && CommitAt(img, slot) == CommitAt(other, slot)
              && TailOf(img, CommitAt(img, slot), limit) == TailOf(other, CommitAt(other, slot), limit)
  {
  }

  /** Once a marker or a commit exists, no corruption makes a reader fall back to the raw file. */
  lemma CorruptionFailsClosed(img: Image, other: Image, requested: Option<nat>)
    requires img.Shaped() && other == img.(raw := other.raw)
    requires img.marker.Some? || img.commits[0].Some? || img.commits[1].Some?
    ensures ReadTail(img, requested) == ReadTail(other, requested)
    ensures ReadTail(img, requested).Ok? <==> Readable(img)
  {
    RecoverIgnoresRaw(img, other, Asked(requested));
    RecoversIfReadable(img, Asked(requested));
  }

  lemma RecoversIfReadable(img: Image, limit: nat)
    requires img.Shaped() && (img.marker.Some? || img.commits[0].Some? || img.commits[1].Some?)
    ensures Recover(img, limit).Ok? <==> Readable(img)
  {
    RecoversIfUsable(img, limit);
    UsableIsReadable(img);
  }

  /** The same in the terms of the search. */
  ghost predicate UsableStore(img: Image)
    requires img.Shaped()
  {
    && !Oversized(img.banks[0]) && !Oversized(img.banks[1]) && (Usable(img, 0) || Usable(img, 1))
    && (Usable(img, 0) && Usable(img, 1) ==> CommitAt(img, 0).storeId == CommitAt(img, 1).storeId)
  }

  lemma RecoversIfUsable(img: Image, limit: nat)
    requires img.Shaped() && (img.marker.Some? || img.commits[0].Some? || img.commits[1].Some?)
    ensures Recover(img, limit).Ok? <==> UsableStore(img)
  {
  }

  lemma UsableIsReadable(img: Image)
    requires img.Shaped()
    ensures UsableStore(img) <==> Readable(img)
  {
    UsableIsSound(img, 0);
    UsableIsSound(img, 1);
    if UsableStore(img) {
      var slot := if Usable(img, 0) then 0 else 1;
      assert Sound(img, slot);
    }
  }

  /**
   A store with a marker or a commit can be read if and only if some commit is sound, no
   bank is beyond the hard cap, and two sound commits agree on their store.
   */
  ghost predicate Readable(img: Image)
    requires img.Shaped()
  {
    && (forall i :: 0 <= i < BANK_COUNT && img.banks[i].Some? ==> |img.banks[i].value.payload| <= 2 * MAX_HISTORY_BYTES)
    && (exists slot :: 0 <= slot < COMMIT_COUNT && Sound(img, slot))
    && (forall a, b :: 0 <= a < COMMIT_COUNT && 0 <= b < COMMIT_COUNT && Sound(img, a) && Sound(img, b) ==>
          img.commits[a].value.value.storeId == img.commits[b].value.value.storeId)
  }

  /** The commit in the slot is whole, in bounds, of the marked store, and its bank holds the bytes it is for. */
  ghost predicate Sound(img: Image, slot: nat)
    requires img.Shaped() && slot < COMMIT_COUNT
  {
    && img.commits[slot].Some? && img.commits[slot].value.Sealed?
    && var c := img.commits[slot].value.value;
       && InBounds(c, slot) && (img.marker.Some? ==> img.marker.value == Sealed(c.storeId))
       && img.banks[c.dataSlot].Some? && Holds(img.banks[c.dataSlot].value, c)
  }

  ghost predicate InBounds(c: Commit, slot: nat) {
    && c.dataSlot <= 1 && c.generation >= 1 && c.bankGeneration >= 1 && c.generation % 2 == slot
    && c.capacity <= 16 * 1024 * 1024 && c.committedLen <= 2 * c.capacity && c.committedLen <= c.streamEnd
  }

  /** The bank was written for this commit, and begins with exactly the bytes committed. */
  ghost predicate Holds(b: Bank, c: Commit) {
    && b.header.storeId == c.storeId && b.header.bankGeneration == c.bankGeneration
    && b.header.dataSlot == c.dataSlot && b.header.capacity == c.capacity
    && c.committedLen <= |b.payload| <= 2 * c.capacity && c.digest == Digest(b.payload[..c.committedLen])
  }

  lemma UsableIsSound(img: Image, slot: nat)
    requires img.Shaped() && slot < COMMIT_COUNT
    ensures Usable(img, slot) <==> Sound(img, slot)
  {
  }

  /** Whatever the image, what recovery returns is a sound commit of it, with the last of the bytes it is for. */
  lemma RecoveredIsSound(img: Image, limit: nat)
    requires img.Shaped() && Recover(img, limit).Ok? && Recover(img, limit).value.Some?
    ensures var r := Recover(img, limit).value.value;
            exists slot :: 0 <= slot < COMMIT_COUNT && Sound(img, slot) && img.commits[slot] == Some(Sealed(r.commit))
              && r.tail == Last(img.banks[r.commit.dataSlot].value.payload[..r.commit.committedLen],
                                Min(limit, r.commit.capacity))
  {
    UsableIsSound(img, 0);
    UsableIsSound(img, 1);
    var r := Recover(img, limit).value.value;
    var slot := if Usable(img, 0) && img.commits[0].value.value == r.commit then 0 else 1;
    assert Sound(img, slot) && img.commits[slot] == Some(Sealed(r.commit));
  }

  /** A store wedged by an earlier attempt stays unreadable: its marker disowns the commit it shows. */
  lemma WedgedIsUnreadable(d: Disk, cap: nat, freshId: nat, limit: nat)
    requires Early(d, cap, freshId) && d.marker.now.Some? && d.commits[1].now.Some?
    requires d.commits[1].now.value.storeId != d.marker.now.value
    ensures Recover(Visible(d), limit).Err?
  {
    VisibleIsCrashImage(d);
    NeverOversized(d, cap, Visible(d));
  }

  // ---- The retry of a failed first commit -----------------------------------------------

  /** The disk after a first publication of the stream whose marker could not be written. */
  function Unmarked(cap: nat, stream: seq<Byte>): Disk {
    var snapshot := Last(stream, cap);
    var c := CompactionOf(EMPTY_STORE, cap, |stream|, snapshot);
    WithCommit(WithBank(EMPTY_STORE.disk, 0, SnapshotBank(c, snapshot)).Settled(), c).Settled()
  }

  /** The disk after the retry, for a stream that may have grown, replaced the bank. */
  function Retried(cap: nat, stream: seq<Byte>, grown: seq<Byte>): Disk {
    var v := EMPTY_STORE.(disk := Unmarked(cap, stream), freshId := 1);
    var snapshot := Last(grown, cap);
    WithBank(v.disk, 0, SnapshotBank(CompactionOf(v, cap, |grown|, snapshot), snapshot))
  }

  lemma UnmarkedIsReadable(cap: nat, stream: seq<Byte>, limit: nat)
    requires cap <= MAX_HISTORY_BYTES && |stream| <= U64_MAX
    ensures var snapshot := Last(stream, cap);
            && Unmarked(cap, stream).Shaped()
            && Recover(Visible(Unmarked(cap, stream)), limit)
               == Ok(Some(Recovered(CompactionOf(EMPTY_STORE, cap, |stream|, snapshot),
                                    Last(snapshot, Min(limit, cap)))))
  {
    var img := Visible(Unmarked(cap, stream));
    assert Usable(img, 1) && !Usable(img, 0);
  }

  /**
   For every capacity and every stream: after a first publication that failed at its
   marker the store is readable, and the retry makes it unreadable before it commits.
   */
  lemma RetriedFirstCommitCanBeLost(cap: nat, stream: seq<Byte>, grown: seq<Byte>, limit: nat)
    requires cap <= MAX_HISTORY_BYTES && |stream| <= U64_MAX
    ensures Recover(Visible(Unmarked(cap, stream)), limit).Ok?
    ensures Recover(Visible(Unmarked(cap, stream)), limit).value.Some?
    ensures Recover(Visible(Retried(cap, stream, grown)), limit).Err?
  {
    UnmarkedIsReadable(cap, stream, limit);
    UnmarkedIsEarly(cap, stream);
    var v := EMPTY_STORE.(disk := Unmarked(cap, stream), freshId := 1);
    var snapshot := Last(grown, cap);
    RewriteIsUnreadable(v.disk, cap, SnapshotBank(CompactionOf(v, cap, |grown|, snapshot), snapshot), limit);
  }

  lemma UnmarkedIsEarly(cap: nat, stream: seq<Byte>)
    requires cap <= MAX_HISTORY_BYTES
    ensures Early(Unmarked(cap, stream), cap, 1) && Unmarked(cap, stream).commits[1].now.Some?
  {
  }

  lemma RewriteIsUnreadable(d: Disk, cap: nat, f: BankFile, limit: nat)
    requires Early(d, cap, f.bank.header.storeId) && d.commits[1].now.Some? && f.Shaped() && f.reach <= 2 * cap
    ensures Recover(Visible(WithBank(d, 0, f)), limit).Err?
  {
    FirstRewriteRecoverable(d, cap, f, limit);
  }
}
