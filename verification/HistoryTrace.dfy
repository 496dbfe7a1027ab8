/** The single steps by which a crash point of the history store follows another. */
module HistoryTrace {
  import opened Basics
  import opened HistoryDisk
  import opened HistoryAnchor
  import opened HistoryStages
  import opened Traces

  /** One disk operation, growth of the stream, or one of the three changes of what the worker knows. */
  ghost predicate PointStep(a: CrashPoint, b: CrashPoint) {
    || Acknowledges(a, b)
    || Attempts(a, b)
    || TakesId(a, b)
    || Grows(a, b)
    || Settles(a, b)
    || RenamesMarker(a, b)
    || (exists slot :: 0 <= slot < COMMIT_COUNT && RenamesCommit(a, b, slot))
    || (exists slot :: 0 <= slot < BANK_COUNT && RenamesBank(a, b, slot))
    || (exists slot :: 0 <= slot < BANK_COUNT && ChangesOpenBank(a, b, slot))
  }

  /** The stream position that was acknowledged as durable. */
  function EndOf(persisted: Option<Commit>): nat {
    match persisted
    case Some(c) => c.streamEnd
    case None => 0
  }

  /** A commit at or past the acknowledged one is acknowledged in its place. */
  predicate Acknowledges(a: CrashPoint, b: CrashPoint) {
    && b == a.(persisted := b.persisted)
    && b.persisted.Some? && EndOf(a.persisted) <= EndOf(b.persisted)
  }

  /** A publication begins; it is a clean first one if nothing was acknowledged and nothing can be found. */
  predicate Attempts(a: CrashPoint, b: CrashPoint) {
    && |a.disk.commits| == COMMIT_COUNT
    && b == a.(cleanStart := a.persisted.None? && Untouched(a.disk))
  }

  predicate TakesId(a: CrashPoint, b: CrashPoint) {
    a.freshId <= b.freshId && b == a.(freshId := b.freshId)
  }

  predicate Grows(a: CrashPoint, b: CrashPoint) {
    a.stream <= b.stream && b == a.(stream := b.stream)
  }

  /** A directory sync: every rename so far is durable. */
  predicate Settles(a: CrashPoint, b: CrashPoint) {
    && |a.disk.banks| == BANK_COUNT && |a.disk.commits| == COMMIT_COUNT
    && b == a.(disk := a.disk.Settled())
  }

  predicate RenamesMarker(a: CrashPoint, b: CrashPoint) {
    b.disk.marker.now.Some? && b == a.(disk := WithMarker(a.disk, b.disk.marker.now.value))
  }

  predicate RenamesCommit(a: CrashPoint, b: CrashPoint, slot: nat)
    requires slot < COMMIT_COUNT
  {
    && |a.disk.commits| == |b.disk.commits| == COMMIT_COUNT && b.disk.commits[slot].now.Some?
    && b == a.(disk := WithCommit(a.disk, b.disk.commits[slot].now.value))
  }

  predicate RenamesBank(a: CrashPoint, b: CrashPoint, slot: nat)
    requires slot < BANK_COUNT
  {
    && |a.disk.banks| == |b.disk.banks| == BANK_COUNT && b.disk.banks[slot].now.Some?
    && b == a.(disk := WithBank(a.disk, slot, b.disk.banks[slot].now.value))
  }

  /** A truncation, a write or a data sync of a bank that is open. */
  predicate ChangesOpenBank(a: CrashPoint, b: CrashPoint, slot: nat)
    requires slot < BANK_COUNT
  {
    && |a.disk.banks| == |b.disk.banks| == BANK_COUNT
    && a.disk.banks[slot].now.Some? && b.disk.banks[slot].now.Some?
    && OpenStep(a.disk.banks[slot].now.value, b.disk.banks[slot].now.value)
    && b == a.(disk := WithOpenBank(a.disk, slot, b.disk.banks[slot].now.value))
  }

  predicate OpenStep(f: BankFile, g: BankFile) {
    || g == Synced(f)
    || (|g.bank.payload| <= |f.bank.payload| && g == Truncated(f, |g.bank.payload|))
    || (f.bank.payload <= g.bank.payload && g == Written(f, g.bank.payload[|f.bank.payload|..]))
  }

  /** Writing appends, and a sync makes it durable. */
  lemma WrittenIsStep(f: BankFile, data: seq<Byte>)
    ensures OpenStep(f, Written(f, data)) && OpenStep(f, Synced(f))
  {
    assert Written(f, data).bank.payload[|f.bank.payload|..] == data;
  }

  ghost function Steps(): (CrashPoint, CrashPoint) -> bool {
    (a: CrashPoint, b: CrashPoint) => PointStep(a, b)
  }

  ghost function Holding(): CrashPoint -> bool {
    (p: CrashPoint) => p.Held()
  }

  /** The run so far: single steps that end in `p`, each keeping what was acknowledged. */
  ghost predicate Traced(trail: seq<CrashPoint>, p: CrashPoint) {
    Trace(Steps(), Holding(), trail, p)
  }

  lemma TraceOn(trail: seq<CrashPoint>, p: CrashPoint, q: CrashPoint)
    requires Traced(trail, p) && PointStep(p, q) && q.Held()
    ensures Traced(trail + [q], q) && trail <= trail + [q]
  {
    TraceGrows(Steps(), Holding(), trail, p, q);
  }

  /** Over a run what was acknowledged and observed only grows. */
  predicate Later(a: CrashPoint, b: CrashPoint) {
    && a.cap == b.cap && a.stream <= b.stream
    && EndOf(a.persisted) <= EndOf(b.persisted) && (a.persisted.Some? ==> b.persisted.Some?)
  }

  lemma AcknowledgedGrows(trail: seq<CrashPoint>, last: CrashPoint, i: nat, j: nat)
    requires Traced(trail, last) && i <= j < |trail|
    ensures Later(trail[i], trail[j])
  {
    AlongTrace(Steps(), (a: CrashPoint, b: CrashPoint) => Later(a, b), trail, i, j);
  }

  /** A point at which recovery is promised: all of them, except while a failed first commit is retried. */
  predicate Promised(p: CrashPoint) {
    p.persisted.Some? || p.cleanStart
  }

  /** An attempt at a first commit begins on a store that an earlier attempt has touched. */
  predicate Retries(a: CrashPoint, b: CrashPoint) {
    Attempts(a, b) && a.persisted.None? && !Untouched(a.disk)
  }

  /** A run that began on an empty store stays under the promise until it retries a first commit. */
  lemma {:induction false} UnpromisedOnlyAfterRetry(trail: seq<CrashPoint>, last: CrashPoint, j: nat)
    requires Traced(trail, last) && j < |trail| && Promised(trail[0]) && !Promised(trail[j])
    ensures exists i :: 0 < i <= j && Retries(trail[i - 1], trail[i])
    decreases j
  {
    assert Linked(Steps(), trail, j);
    if Promised(trail[j - 1]) {
      assert Retries(trail[j - 1], trail[j]);
    } else {
      UnpromisedOnlyAfterRetry(trail, last, j - 1);
    }
  }

  lemma TracedIsHeld(trail: seq<CrashPoint>, last: CrashPoint, j: nat)
    requires Traced(trail, last) && j < |trail|
    ensures trail[j].Held()
  {
    assert GoodAt(Holding(), trail, j);
  }
}
