/**
 Why a crash cannot lose a committed history: the conditions on the disk that
 make recovery succeed, and the two theorems that say so.
 */
module HistoryAnchor {
  import opened Basics
  import opened HistoryDisk

  function HeaderOf(c: Commit): Header {
    Header(c.storeId, c.bankGeneration, c.dataSlot, c.capacity)
  }

  /** `c` describes a contiguous piece of `stream` that covers the last `cap` bytes before its end. */
  ghost predicate Faithful(c: Commit, cap: nat, stream: seq<Byte>) {
    && c.capacity == cap
    && WellFormed(c, c.generation % COMMIT_COUNT)
    && c.streamEnd <= |stream|
    && Min(cap, c.streamEnd) <= c.committedLen <= c.streamEnd
    && c.digest.of == Piece(stream, c.streamEnd, c.committedLen)
  }

  /** Every bank a crash can show stays inside the physical bound. */
  ghost predicate Bounded(d: Disk, cap: nat) {
    && d.Shaped()
    && cap <= MAX_HISTORY_BYTES
    && (forall i, f :: 0 <= i < BANK_COUNT && d.banks[i].Shows(Some(f)) ==> f.reach <= 2 * cap)
  }

  /** The bank of `c` shows one version, whose synced part covers the committed payload. */
  ghost predicate BankHolds(d: Disk, c: Commit)
    requires d.Shaped()
  {
    && c.dataSlot < BANK_COUNT
    && d.banks[c.dataSlot].older == {}
    && d.banks[c.dataSlot].now.Some?
    && var f := d.banks[c.dataSlot].now.value;
       f.bank.header == HeaderOf(c) && c.committedLen <= f.synced
       && f.bank.payload[..c.committedLen] == c.digest.of
  }

  /** What the other commit slot may show while `c` is the committed generation. */
  ghost predicate OtherSlotFaithful(d: Disk, c: Commit, cap: nat, stream: seq<Byte>)
    requires d.Shaped()
  {
    forall o :: d.commits[1 - c.generation % COMMIT_COUNT].Shows(Some(o)) ==>
      Faithful(o, cap, stream) && (o.generation > c.generation ==> o.streamEnd >= c.streamEnd)
  }

  /** The disk holds commit `c` beyond the reach of any crash. */
  ghost predicate Anchored(d: Disk, c: Commit, cap: nat, stream: seq<Byte>) {
    && Bounded(d, cap)
    && Faithful(c, cap, stream)
    && d.commits[c.generation % COMMIT_COUNT] == Versions(Some(c), {})
    && BankHolds(d, c)
    && d.marker == Versions(Some(c.storeId), {})
    && OtherSlotFaithful(d, c, cap, stream)
  }

  /** What a reader must get when the writer stopped with `durableEnd` acknowledged. */
  ghost predicate Meets(r: Result<Option<Recovered>>, cap: nat, stream: seq<Byte>, durableEnd: nat,
                        committed: bool, limit: nat)
  {
    && r.Ok?
    && (r.value.None? ==> !committed)
    && (r.value.Some? ==>
          var end := r.value.value.commit.streamEnd;
          durableEnd <= end <= |stream| && r.value.value.tail == Last(stream[..end], Min(limit, cap)))
  }

  lemma TailIsStreamTail(c: Commit, cap: nat, stream: seq<Byte>, limit: nat)
    requires Faithful(c, cap, stream)
    ensures Last(c.digest.of, Min(limit, cap)) == Last(stream[..c.streamEnd], Min(limit, cap))
  {
    LastOfPiece(stream, c.streamEnd, c.committedLen, Min(limit, cap));
  }

  lemma UsableMeets(img: Image, slot: nat, cap: nat, stream: seq<Byte>, limit: nat)
    requires img.Shaped() && slot < COMMIT_COUNT && Usable(img, slot)
    requires Faithful(CommitAt(img, slot), cap, stream)
    ensures TailOf(img, CommitAt(img, slot), limit)
            == Last(stream[..CommitAt(img, slot).streamEnd], Min(limit, cap))
  {
    TailIsStreamTail(CommitAt(img, slot), cap, stream, limit);
  }

  /** A bank inside the bound is never oversized in a crash image. */
  lemma NeverOversized(d: Disk, cap: nat, img: Image)
    requires Bounded(d, cap) && CrashImage(d, img)
    ensures !Oversized(img.banks[0]) && !Oversized(img.banks[1])
  {
    forall i | 0 <= i < BANK_COUNT ensures !Oversized(img.banks[i]) {
      assert BankMayShow(d.banks[i], img.banks[i]);
    }
  }

  /** The bank that holds `c` validates in every crash image. */
  lemma HeldBankValidates(d: Disk, c: Commit, cap: nat, img: Image)
    requires Bounded(d, cap) && CrashImage(d, img) && BankHolds(d, c) && c.capacity == cap
    ensures BankValidates(img, c)
  {
    var v := d.banks[c.dataSlot];
    assert BankMayShow(v, img.banks[c.dataSlot]);
    var f :| v.Shows(Some(f)) && Survives(f, img.banks[c.dataSlot].value);
    var b := img.banks[c.dataSlot].value;
    assert b.payload[..c.committedLen] == b.payload[..f.synced][..c.committedLen];
    assert f.bank.payload[..c.committedLen] == f.bank.payload[..f.synced][..c.committedLen];
  }

  /** Recovery over an image in which `c` is usable and the other slot is faithful. */
  lemma NewestMeets(img: Image, c: Commit, cap: nat, stream: seq<Byte>, limit: nat)
    requires img.Shaped() && !Oversized(img.banks[0]) && !Oversized(img.banks[1])
    requires img.marker == Some(Sealed(c.storeId))
    requires Faithful(c, cap, stream)
    requires c.generation % COMMIT_COUNT == 0 || c.generation % COMMIT_COUNT == 1
    requires Usable(img, c.generation % COMMIT_COUNT) && CommitAt(img, c.generation % COMMIT_COUNT) == c
    requires var other := 1 - c.generation % COMMIT_COUNT;
             Usable(img, other) ==>
               var o := CommitAt(img, other);
               Faithful(o, cap, stream) && (o.generation > c.generation ==> o.streamEnd >= c.streamEnd)
    ensures Meets(Recover(img, limit), cap, stream, c.streamEnd, true, limit)
  {
    var mine := c.generation % COMMIT_COUNT;
    var slot := Winner(img, limit, mine);
    SlotMeets(img, slot, cap, stream, limit, c.streamEnd);
  }

  /** The slot that recovery takes when it can use `mine`. */
  lemma Winner(img: Image, limit: nat, mine: nat) returns (slot: nat)
    requires img.Shaped() && !Oversized(img.banks[0]) && !Oversized(img.banks[1])
    requires img.marker.Some? && img.marker.value.Sealed? && mine < COMMIT_COUNT && Usable(img, mine)
    ensures slot < COMMIT_COUNT && Usable(img, slot)
    ensures Recover(img, limit) == Ok(Some(Recovered(CommitAt(img, slot), TailOf(img, CommitAt(img, slot), limit))))
    ensures slot == mine || (slot == 1 - mine && CommitAt(img, slot).generation >= CommitAt(img, mine).generation)
  {
    slot := if !Usable(img, 1) || (Usable(img, 0) && CommitAt(img, 0).generation > CommitAt(img, 1).generation)
            then 0 else 1;
  }

  lemma SlotMeets(img: Image, slot: nat, cap: nat, stream: seq<Byte>, limit: nat, end: nat)
    requires img.Shaped() && slot < COMMIT_COUNT && Usable(img, slot)
    requires Faithful(CommitAt(img, slot), cap, stream) && end <= CommitAt(img, slot).streamEnd
    requires Recover(img, limit) == Ok(Some(Recovered(CommitAt(img, slot), TailOf(img, CommitAt(img, slot), limit))))
    ensures Meets(Recover(img, limit), cap, stream, end, true, limit)
  {
    UsableMeets(img, slot, cap, stream, limit);
  }

  /**
   Crash safety: while `c` is anchored, every crash image recovers to a commit at
   or past it, with exactly the last bytes of the observed stream.
   */
  lemma AnchoredRecovers(d: Disk, c: Commit, cap: nat, stream: seq<Byte>, img: Image, limit: nat)
    requires Anchored(d, c, cap, stream) && CrashImage(d, img)
    ensures Meets(Recover(img, limit), cap, stream, c.streamEnd, true, limit)
  {
    NeverOversized(d, cap, img);
    var mine := c.generation % COMMIT_COUNT;
    assert MetaMayShow(d.commits[mine], img.commits[mine]);
    assert MetaMayShow(d.commits[1 - mine], img.commits[1 - mine]);
    HeldBankValidates(d, c, cap, img);
    NewestMeets(img, c, cap, stream, limit);
  }

  // ---- Before the first commit -------------------------------------------

  /** No reader can find a commit or a marker. */
  predicate Untouched(d: Disk)
    requires |d.commits| == COMMIT_COUNT
  {
    d.commits[0].Absent() && d.commits[1].Absent() && d.marker.Absent()
  }

  /** The first commit has been published, perhaps not yet durably. */
  ghost predicate FirstHeld(d: Disk, c: Commit, cap: nat, stream: seq<Byte>) {
    && Bounded(d, cap)
    && Faithful(c, cap, stream) && c.generation == 1
    && d.commits[0].Absent()
    && (forall o :: d.commits[1].Shows(Some(o)) ==> o == c)
    && BankHolds(d, c)
    && (forall m: nat :: d.marker.Shows(Some(m)) ==>
          m == c.storeId && d.commits[1] == Versions(Some(c), {}))
  }

  lemma UntouchedRecovers(d: Disk, cap: nat, stream: seq<Byte>, img: Image, limit: nat)
    requires Bounded(d, cap) && Untouched(d) && CrashImage(d, img)
    ensures Meets(Recover(img, limit), cap, stream, 0, false, limit)
  {
    NeverOversized(d, cap, img);
    assert MetaMayShow(d.commits[0], img.commits[0]);
    assert MetaMayShow(d.commits[1], img.commits[1]);
  }

  lemma FirstHeldRecovers(d: Disk, c: Commit, cap: nat, stream: seq<Byte>, img: Image, limit: nat)
    requires FirstHeld(d, c, cap, stream) && CrashImage(d, img)
    ensures Meets(Recover(img, limit), cap, stream, 0, false, limit)
  {
    NeverOversized(d, cap, img);
    assert MetaMayShow(d.commits[0], img.commits[0]);
    assert MetaMayShow(d.commits[1], img.commits[1]);
    HeldBankValidates(d, c, cap, img);
    if img.commits[1].Some? {
      assert Usable(img, 1);
      UsableMeets(img, 1, cap, stream, limit);
    }
  }

  /** What a reader sees when nothing was lost: the newest version of every file. */
  function Visible(d: Disk): Image
    requires |d.banks| == BANK_COUNT && |d.commits| == COMMIT_COUNT
  {
    Image(seq(BANK_COUNT, i requires 0 <= i < BANK_COUNT =>
            if d.banks[i].now.Some? then Some(d.banks[i].now.value.bank) else None),
          seq(COMMIT_COUNT, i requires 0 <= i < COMMIT_COUNT =>
            if d.commits[i].now.Some? then Some(Sealed(d.commits[i].now.value)) else None),
          if d.marker.now.Some? then Some(Sealed(d.marker.now.value)) else None,
          None)
  }

  lemma VisibleIsCrashImage(d: Disk)
    requires d.Shaped()
    ensures CrashImage(d, Visible(d))
  {
    forall i | 0 <= i < BANK_COUNT ensures BankMayShow(d.banks[i], Visible(d).banks[i]) {
      if d.banks[i].now.Some? {
        var f := d.banks[i].now.value;
        assert d.banks[i].Shows(Some(f)) && Survives(f, f.bank);
      }
    }
  }

  /** The state of a store whose first commit has not been acknowledged. */
  ghost predicate Early(d: Disk, cap: nat, freshId: nat) {
    && Bounded(d, cap)
    && d.commits[0].Absent()
    && (forall o :: d.commits[1].Shows(Some(o)) ==> o.storeId < freshId && o.generation == 1 && o.dataSlot == 0)
    && (forall m: nat :: d.marker.Shows(Some(m)) ==> m < freshId)
  }

  /**
   The retry of a failed first commit rewrites bank 0 under a new store id.
   A crash right after that rewrite is recoverable exactly when no earlier
   attempt left a commit or a marker behind.
   */
  lemma FirstRewriteRecoverable(d: Disk, cap: nat, f: BankFile, limit: nat)
    requires Early(d, cap, f.bank.header.storeId)
    requires f.Shaped() && f.reach <= 2 * cap
    ensures var d' := d.(banks := d.banks[0 := d.banks[0].Replaced(f)]);
            Recover(Visible(d'), limit).Ok?
            <==> (d.commits[1].now.None? && d.marker.now.None?)
  {
    var d' := d.(banks := d.banks[0 := d.banks[0].Replaced(f)]);
    var img := Visible(d');
    assert !Oversized(img.banks[0]);
    if d.banks[1].now.Some? { assert d.banks[1].Shows(Some(d.banks[1].now.value)); }
    if d.commits[1].now.Some? {
      assert d.commits[1].Shows(Some(d.commits[1].now.value));
      assert !Usable(img, 1);
    }
  }
}
