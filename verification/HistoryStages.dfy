/**
 What single disk operations do to the conditions of `HistoryAnchor`: each stage
 of an append or a compaction keeps the acknowledged commit, and the last stage
 moves it to the new one.
 */
module HistoryStages {
  import opened Basics
  import opened HistoryDisk
  import opened HistoryAnchor

  // ---- Effects of single disk operations ---------------------------------

  function WithBank(d: Disk, slot: nat, f: BankFile): Disk
    requires |d.banks| == BANK_COUNT && slot < BANK_COUNT
  {
    d.(banks := d.banks[slot := d.banks[slot].Replaced(f)])
  }

  function WithOpenBank(d: Disk, slot: nat, f: BankFile): Disk
    requires |d.banks| == BANK_COUNT && slot < BANK_COUNT
  {
    d.(banks := d.banks[slot := d.banks[slot].(now := Some(f))])
  }

  function WithCommit(d: Disk, c: Commit): Disk
    requires |d.commits| == COMMIT_COUNT
  {
    var slot := c.generation % COMMIT_COUNT;
    d.(commits := d.commits[slot := d.commits[slot].Replaced(c)])
  }

  function WithMarker(d: Disk, id: nat): Disk {
    d.(marker := d.marker.Replaced(id))
  }

  /** Observing more output keeps every published commit faithful. */
  lemma StreamGrows(d: Disk, c: Commit, cap: nat, stream: seq<Byte>, data: seq<Byte>)
    ensures Anchored(d, c, cap, stream) ==> Anchored(d, c, cap, stream + data)
    ensures FirstHeld(d, c, cap, stream) ==> FirstHeld(d, c, cap, stream + data)
  {
    forall o | Faithful(o, cap, stream) ensures Faithful(o, cap, stream + data) {
      PieceOfGrown(stream, data, o.streamEnd, o.committedLen);
    }
  }

  lemma SettleBounded(d: Disk, cap: nat)
    requires Bounded(d, cap)
    ensures Bounded(d.Settled(), cap)
  {
    var e := d.Settled();
    forall i, f | 0 <= i < BANK_COUNT && e.banks[i].Shows(Some(f)) ensures d.banks[i].Shows(Some(f)) {
    }
  }

  /** A directory sync cannot lose an anchored commit. */
  lemma SettleKeepsAnchor(d: Disk, c: Commit, cap: nat, stream: seq<Byte>)
    requires Anchored(d, c, cap, stream)
    ensures Anchored(d.Settled(), c, cap, stream)
  {
    SettleBounded(d, cap);
    var other := 1 - c.generation % COMMIT_COUNT;
    forall o | d.Settled().commits[other].Shows(Some(o)) ensures d.commits[other].Shows(Some(o)) {
    }
  }

  lemma NewBankBounded(d: Disk, cap: nat, slot: nat, f: BankFile)
    requires Bounded(d, cap) && slot < BANK_COUNT && f.Shaped() && f.reach <= 2 * cap
    ensures Bounded(WithBank(d, slot, f), cap)
    ensures Bounded(WithOpenBank(d, slot, f), cap)
  {
    var d' := WithBank(d, slot, f);
    forall i, g | 0 <= i < BANK_COUNT && d'.banks[i].Shows(Some(g))
      ensures d.banks[i].Shows(Some(g)) || g == f
    {
    }
    var d'' := WithOpenBank(d, slot, f);
    forall i, g | 0 <= i < BANK_COUNT && d''.banks[i].Shows(Some(g))
      ensures d.banks[i].Shows(Some(g)) || g == f
    {
    }
  }

  /** Replacing the other bank keeps the anchor. */
  lemma NewBankKeepsAnchor(d: Disk, c: Commit, cap: nat, stream: seq<Byte>, slot: nat, f: BankFile)
    requires Anchored(d, c, cap, stream)
    requires slot < BANK_COUNT && slot != c.dataSlot && f.Shaped() && f.reach <= 2 * cap
    ensures Anchored(WithBank(d, slot, f), c, cap, stream)
  {
    NewBankBounded(d, cap, slot, f);
  }

  /** Changing the anchored bank past its committed prefix keeps the anchor. */
  lemma OpenBankKeepsAnchor(d: Disk, c: Commit, cap: nat, stream: seq<Byte>, f: BankFile)
    requires Anchored(d, c, cap, stream)
    requires f.Shaped() && f.reach <= 2 * cap
    requires f.bank.header == HeaderOf(c) && c.committedLen <= f.synced
    requires f.bank.payload[..c.committedLen] == c.digest.of
    ensures Anchored(WithOpenBank(d, c.dataSlot, f), c, cap, stream)
  {
    NewBankBounded(d, cap, c.dataSlot, f);
  }

  /** Publishing the next generation into the other slot keeps the anchor. */
  lemma NewCommitKeepsAnchor(d: Disk, c: Commit, cap: nat, stream: seq<Byte>, next: Commit)
    requires Anchored(d, c, cap, stream)
    requires Faithful(next, cap, stream) && next.generation == c.generation + 1 && next.streamEnd >= c.streamEnd
    ensures Anchored(WithCommit(d, next), c, cap, stream)
  {
    var d' := WithCommit(d, next);
    var other := next.generation % COMMIT_COUNT;
    assert other == 1 - c.generation % COMMIT_COUNT;
    forall o | d'.commits[other].Shows(Some(o)) ensures d.commits[other].Shows(Some(o)) || o == next {
    }
  }

  /** Once the next commit is durable and its bank holds it, it is the anchor. */
  lemma AnchorMoves(d: Disk, c: Commit, cap: nat, stream: seq<Byte>, next: Commit)
    requires Anchored(d, c, cap, stream)
    requires Faithful(next, cap, stream) && next.generation == c.generation + 1 && next.storeId == c.storeId
    requires BankHolds(WithCommit(d, next).Settled(), next)
    ensures Anchored(WithCommit(d, next).Settled(), next, cap, stream)
  {
    SettleBounded(WithCommit(d, next), cap);
    assert c.generation % COMMIT_COUNT == 1 - next.generation % COMMIT_COUNT;
  }

  // ---- The first commit --------------------------------------------------

  lemma SettleShowsLess(d: Disk)
    requires d.Shaped()
    ensures forall i, o :: 0 <= i < COMMIT_COUNT && d.Settled().commits[i].Shows(o) ==> d.commits[i].Shows(o)
    ensures forall m :: d.Settled().marker.Shows(m) ==> d.marker.Shows(m)
  {
  }

  lemma SettleKeepsEarly(d: Disk, cap: nat, freshId: nat)
    requires Early(d, cap, freshId)
    ensures Early(d.Settled(), cap, freshId)
    ensures Untouched(d) ==> Untouched(d.Settled())
  {
    SettleBounded(d, cap);
    SettleShowsLess(d);
  }

  lemma FirstBankKeepsEarly(d: Disk, cap: nat, freshId: nat, f: BankFile)
    requires Early(d, cap, freshId) && f.Shaped() && f.reach <= 2 * cap
    ensures Early(WithBank(d, 0, f), cap, freshId)
    ensures Untouched(d) ==> Untouched(WithBank(d, 0, f))
  {
    NewBankBounded(d, cap, 0, f);
  }

  /** A first commit of a fresh store id, over a bank that holds it. */
  ghost predicate FirstCommitOf(d: Disk, c: Commit, cap: nat, stream: seq<Byte>)
    requires d.Shaped()
  {
    Faithful(c, cap, stream) && c.generation == 1 && c.dataSlot == 0 && BankHolds(d, c)
  }

  lemma FirstCommitKeepsEarly(d: Disk, c: Commit, cap: nat, stream: seq<Byte>, freshId: nat)
    requires Early(d, cap, freshId) && c.storeId < freshId
    requires FirstCommitOf(d, c, cap, stream)
    ensures Early(WithCommit(d, c), cap, freshId)
    ensures FirstCommitOf(WithCommit(d, c), c, cap, stream)
    ensures FirstCommitOf(WithCommit(d, c).Settled(), c, cap, stream)
    ensures Untouched(d) ==> FirstHeld(WithCommit(d, c), c, cap, stream)
    ensures Untouched(d) ==> FirstHeld(WithCommit(d, c).Settled(), c, cap, stream)
  {
    var d' := WithCommit(d, c);
    forall o | d'.commits[1].Shows(Some(o)) ensures d.commits[1].Shows(Some(o)) || o == c {
    }
    SettleBounded(d', cap);
    SettleShowsLess(d');
  }

  lemma MarkerKeepsEarly(d: Disk, c: Commit, cap: nat, stream: seq<Byte>, freshId: nat)
    requires Early(d, cap, freshId) && c.storeId < freshId && d.commits[1] == Versions(Some(c), {})
    ensures Early(WithMarker(d, c.storeId), cap, freshId)
    ensures FirstHeld(d, c, cap, stream) ==> FirstHeld(WithMarker(d, c.storeId), c, cap, stream)
    ensures FirstHeld(d, c, cap, stream) ==> FirstHeld(WithMarker(d, c.storeId).Settled(), c, cap, stream)
  {
    var d' := WithMarker(d, c.storeId);
    forall m: nat | d'.marker.Shows(Some(m)) ensures d.marker.Shows(Some(m)) || m == c.storeId {
    }
    SettleBounded(d', cap);
    SettleShowsLess(d');
  }

  /** The marker completes the first commit: it is anchored. */
  lemma FirstAnchor(d: Disk, c: Commit, cap: nat, stream: seq<Byte>, freshId: nat)
    requires Early(d, cap, freshId) && d.commits[1] == Versions(Some(c), {})
    requires FirstCommitOf(d, c, cap, stream)
    ensures Anchored(WithMarker(d, c.storeId).Settled(), c, cap, stream)
  {
    SettleBounded(WithMarker(d, c.storeId), cap);
    SettleShowsLess(WithMarker(d, c.storeId));
  }

  /** The v2 files hold what was acknowledged, wherever the current operation stands. */
  ghost predicate Holds(d: Disk, persisted: Option<Commit>, cap: nat, stream: seq<Byte>, cleanStart: bool,
                        freshId: nat)
  {
    match persisted
    case Some(c) => Anchored(d, c, cap, stream)
    case None =>
      Early(d, cap, freshId)
      && (cleanStart ==> Untouched(d) || exists c :: FirstHeld(d, c, cap, stream))
  }

  lemma GrownStreamHolds(d: Disk, persisted: Option<Commit>, cap: nat, stream: seq<Byte>, data: seq<Byte>,
                         cleanStart: bool, freshId: nat)
    requires Holds(d, persisted, cap, stream, cleanStart, freshId)
    ensures Holds(d, persisted, cap, stream + data, cleanStart, freshId)
  {
    if persisted.Some? {
      StreamGrows(d, persisted.value, cap, stream, data);
    } else if cleanStart && !Untouched(d) {
      var c :| FirstHeld(d, c, cap, stream);
      StreamGrows(d, c, cap, stream, data);
    }
  }

  /**
   The machine may stop here. `cleanStart` says that the directory held no commit
   and no marker when the current attempt at a first commit began.
   */
  datatype CrashPoint = CrashPoint(disk: Disk, persisted: Option<Commit>, cap: nat, stream: seq<Byte>,
                                   cleanStart: bool, freshId: nat)
  {
    /** The files hold what was acknowledged before this point. */
    ghost predicate Held() {
      Holds(disk, persisted, cap, stream, cleanStart, freshId)
    }
  }

  // ---- The stages of a publication ---------------------------------------

  /** The bank a compaction writes: never the one the acknowledged commit names. */
  ghost predicate CompactionBank(d: Disk, persisted: Option<Commit>, cap: nat, cleanStart: bool, slot: nat,
                                 f: BankFile)
  {
    && d.Shaped() && slot < BANK_COUNT && f.Shaped() && f.reach <= 2 * cap
    && (persisted.Some? ==> slot != persisted.value.dataSlot)
    && (persisted.None? ==> slot == 0 && (cleanStart ==> Untouched(d)))
  }

  lemma StageBank(d: Disk, persisted: Option<Commit>, cap: nat, stream: seq<Byte>, cleanStart: bool,
                  freshId: nat, slot: nat, f: BankFile)
    requires Holds(d, persisted, cap, stream, cleanStart, freshId)
    requires CompactionBank(d, persisted, cap, cleanStart, slot, f)
    ensures Holds(WithBank(d, slot, f), persisted, cap, stream, cleanStart, freshId)
    ensures Holds(WithBank(d, slot, f).Settled(), persisted, cap, stream, cleanStart, freshId)
    ensures persisted.None? && cleanStart ==> Untouched(WithBank(d, slot, f).Settled())
  {
    var d' := WithBank(d, slot, f);
    match persisted {
      case Some(c) =>
        NewBankKeepsAnchor(d, c, cap, stream, slot, f);
        SettleKeepsAnchor(d', c, cap, stream);
      case None =>
        FirstBankKeepsEarly(d, cap, freshId, f);
        SettleKeepsEarly(d', cap, freshId);
    }
  }

  /** `next` is the commit to publish over `d`: the following generation, or the first one. */
  ghost predicate NextCommit(d: Disk, persisted: Option<Commit>, cap: nat, stream: seq<Byte>, freshId: nat,
                             next: Commit)
  {
    && d.Shaped() && Faithful(next, cap, stream) && BankHolds(d, next)
    && match persisted
       case Some(c) =>
         next.generation == c.generation + 1 && next.storeId == c.storeId && next.streamEnd >= c.streamEnd
       case None => next.generation == 1 && next.storeId < freshId && next.dataSlot == 0
  }

  lemma StageCommit(d: Disk, persisted: Option<Commit>, cap: nat, stream: seq<Byte>, cleanStart: bool,
                    freshId: nat, next: Commit)
    requires Holds(d, persisted, cap, stream, cleanStart, freshId)
    requires NextCommit(d, persisted, cap, stream, freshId, next)
    requires persisted.None? && cleanStart ==> Untouched(d)
    ensures Holds(WithCommit(d, next), persisted, cap, stream, cleanStart, freshId)
    ensures Holds(WithCommit(d, next).Settled(), persisted, cap, stream, cleanStart, freshId)
    ensures persisted.Some? ==> Anchored(WithCommit(d, next).Settled(), next, cap, stream)
    ensures persisted.None? ==>
              var e := WithCommit(d, next).Settled();
              Early(e, cap, freshId) && FirstCommitOf(e, next, cap, stream) && e.commits[1] == Versions(Some(next), {})
              && (cleanStart ==> FirstHeld(e, next, cap, stream))
  {
    var d' := WithCommit(d, next);
    match persisted {
      case Some(c) =>
        NewCommitKeepsAnchor(d, c, cap, stream, next);
        SettleKeepsAnchor(d', c, cap, stream);
        AnchorMoves(d, c, cap, stream, next);
      case None =>
        FirstCommitKeepsEarly(d, next, cap, stream, freshId);
        SettleKeepsEarly(d', cap, freshId);
    }
  }

  lemma StageMarker(d: Disk, cap: nat, stream: seq<Byte>, cleanStart: bool, freshId: nat, c: Commit)
    requires Early(d, cap, freshId) && c.storeId < freshId && d.commits[1] == Versions(Some(c), {})
    requires FirstCommitOf(d, c, cap, stream)
    requires cleanStart ==> FirstHeld(d, c, cap, stream)
    ensures Holds(WithMarker(d, c.storeId), None, cap, stream, cleanStart, freshId)
    ensures Holds(WithMarker(d, c.storeId).Settled(), None, cap, stream, cleanStart, freshId)
    ensures Anchored(WithMarker(d, c.storeId).Settled(), c, cap, stream)
  {
    MarkerKeepsEarly(d, c, cap, stream, freshId);
    SettleKeepsEarly(WithMarker(d, c.storeId), cap, freshId);
    FirstAnchor(d, c, cap, stream, freshId);
  }

  // ---- The open bank -----------------------------------------------------

  function Truncated(f: BankFile, n: nat): BankFile
    requires n <= |f.bank.payload|
  {
    BankFile(f.bank.(payload := f.bank.payload[..n]), Min(f.synced, n), f.reach)
  }

  function Written(f: BankFile, data: seq<Byte>): BankFile {
    BankFile(f.bank.(payload := f.bank.payload + data), f.synced, Max(f.reach, |f.bank.payload| + |data|))
  }

  function Synced(f: BankFile): BankFile {
    BankFile(f.bank, |f.bank.payload|, |f.bank.payload|)
  }

  /** `f` carries at least the committed prefix of `c`, synced. */
  ghost predicate Carries(f: BankFile, c: Commit, cap: nat) {
    && f.Shaped() && f.reach <= 2 * cap && f.bank.header == HeaderOf(c)
    && c.committedLen <= f.synced && f.bank.payload[..c.committedLen] == c.digest.of
  }

  lemma OpenBankStages(f: BankFile, c: Commit, cap: nat, data: seq<Byte>)
    requires Carries(f, c, cap) && c.committedLen + |data| <= 2 * cap && |c.digest.of| == c.committedLen
    ensures Carries(Truncated(f, c.committedLen), c, cap)
    ensures Truncated(f, c.committedLen).bank.payload == c.digest.of
    ensures Carries(Written(Truncated(f, c.committedLen), data), c, cap)
    ensures Carries(Synced(Written(Truncated(f, c.committedLen), data)), c, cap)
  {
  }

  function AppendedCommit(c: Commit, cap: nat, observedEnd: nat, pending: seq<Byte>): Commit {
    Commit(c.storeId, c.generation + 1, c.bankGeneration, c.dataSlot, cap, c.committedLen + |pending|,
           observedEnd, Digest(c.digest.of + pending))
  }

  /** Appending the contiguous queue extends the committed piece of the stream. */
  lemma AppendedFaithful(c: Commit, cap: nat, stream: seq<Byte>, pending: seq<Byte>)
    requires Faithful(c, cap, stream) && EndsWith(stream, pending, Min(cap, |stream| - c.streamEnd))
    requires cap == 0 || |stream| - c.streamEnd == |pending|
    requires c.committedLen + |pending| <= 2 * cap
    ensures Faithful(AppendedCommit(c, cap, |stream|, pending), cap, stream)
  {
    if cap > 0 {
      assert pending == Piece(stream, |stream|, |pending|);
      PieceJoins(stream, c.streamEnd, c.committedLen, |pending|);
    }
  }

  function CompactedCommit(id: nat, generation: nat, bankGeneration: nat, slot: nat, cap: nat, observedEnd: nat,
                           snapshot: seq<Byte>): Commit
  {
    Commit(id, generation, bankGeneration, slot, cap, |snapshot|, observedEnd, Digest(snapshot))
  }

  /** The ring is a faithful snapshot of the stream. */
  lemma CompactedFaithful(id: nat, generation: nat, bankGeneration: nat, slot: nat, cap: nat, stream: seq<Byte>)
    requires generation > 0 && bankGeneration > 0 && slot < BANK_COUNT && cap <= MAX_HISTORY_BYTES
    ensures Faithful(CompactedCommit(id, generation, bankGeneration, slot, cap, |stream|, Last(stream, cap)),
                     cap, stream)
  {
    PieceFacts(stream, cap);
  }
}
