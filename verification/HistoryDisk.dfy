/**
 The on-disk half of the durable history store: bank headers, commit records,
 the presence marker, what a crash may leave of them, and recovery.

 A digest stands for SHA-256 and is taken to be injective, so it carries the
 bytes it was computed from.
 */
module HistoryDisk {
  import opened Basics

  type Byte = bv8

  const BANK_HEADER_BYTES := 104
  const BANK_COUNT := 2
  const COMMIT_COUNT := 2
  const MAX_HISTORY_BYTES := 16 * 1024 * 1024

  datatype Digest = Digest(of: seq<Byte>)

  datatype Header = Header(storeId: nat, bankGeneration: nat, dataSlot: nat, capacity: nat)

  datatype Bank = Bank(header: Header, payload: seq<Byte>)

  datatype Commit = Commit(storeId: nat, generation: nat, bankGeneration: nat, dataSlot: nat,
                           capacity: nat, committedLen: nat, streamEnd: nat, digest: Digest)

  /** A checksummed metadata file as a reader finds it. */
  datatype Meta<T> = Torn | Sealed(value: T)

  /** What a reader finds in the session directory. */
  datatype Image = Image(banks: seq<Option<Bank>>, commits: seq<Option<Meta<Commit>>>,
                         marker: Option<Meta<nat>>, raw: Option<seq<Byte>>)
  {
    predicate Shaped() {
      |banks| == BANK_COUNT && |commits| == COMMIT_COUNT
    }
  }

  datatype Recovered = Recovered(commit: Commit, tail: seq<Byte>)

  // ---- Recovery ----------------------------------------------------------

  /** `HistoryCommit::validate`. */
  predicate WellFormed(c: Commit, slot: nat) {
    && c.dataSlot < BANK_COUNT
    && c.generation % COMMIT_COUNT == slot
    && c.generation > 0 && c.bankGeneration > 0
    && c.capacity <= MAX_HISTORY_BYTES
    && c.committedLen <= 2 * c.capacity
    && c.committedLen <= c.streamEnd
  }

  function PhysicalLen(b: Bank): nat {
    BANK_HEADER_BYTES + |b.payload|
  }

  /** The bank named by `c` is there, matches it, and still hashes to its digest. */
  predicate BankValidates(img: Image, c: Commit)
    requires img.Shaped() && c.dataSlot < BANK_COUNT
  {
    match img.banks[c.dataSlot]
    case None => false
    case Some(b) =>
      && PhysicalLen(b) >= BANK_HEADER_BYTES + c.committedLen
      && PhysicalLen(b) <= BANK_HEADER_BYTES + 2 * c.capacity
      && b.header == Header(c.storeId, c.bankGeneration, c.dataSlot, c.capacity)
      && Digest(b.payload[..c.committedLen]) == c.digest
  }

  predicate MarkerAgrees(img: Image, c: Commit) {
    img.marker.Some? ==> img.marker.value == Sealed(c.storeId)
  }

  /** The commit in `slot` can be recovered. */
  predicate Usable(img: Image, slot: nat)
    requires img.Shaped() && slot < COMMIT_COUNT
  {
    match img.commits[slot]
    case Some(Sealed(c)) => WellFormed(c, slot) && MarkerAgrees(img, c) && BankValidates(img, c)
    case _ => false
  }

  function CommitAt(img: Image, slot: nat): Commit
    requires img.Shaped() && slot < COMMIT_COUNT && Usable(img, slot)
  {
    img.commits[slot].value.value
  }

  function TailOf(img: Image, c: Commit, limit: nat): seq<Byte>
    requires img.Shaped() && c.dataSlot < BANK_COUNT && BankValidates(img, c)
  {
    Last(img.banks[c.dataSlot].value.payload[..c.committedLen], Min(limit, c.capacity))
  }

  predicate Oversized(b: Option<Bank>) {
    b.Some? && PhysicalLen(b.value) > BANK_HEADER_BYTES + 2 * MAX_HISTORY_BYTES
  }

  /**
   What recovery promises, without saying how it searches: the usable commit of
   the highest generation, with the last bytes of its committed payload.
   */
  function Recover(img: Image, limit: nat): Result<Option<Recovered>>
    requires img.Shaped()
  {
    if Oversized(img.banks[0]) || Oversized(img.banks[1]) then Err("bank exceeds the hard cap")
    else if img.marker == Some(Torn) then Err("history marker is invalid")
    else if !Usable(img, 0) && !Usable(img, 1) then
      if img.commits[0].Some? || img.commits[1].Some? || img.marker.Some?
      then Err("no valid committed history generation remains")
      else Ok(None)
    else if Usable(img, 0) && Usable(img, 1) && img.marker.None?
            && CommitAt(img, 0).storeId != CommitAt(img, 1).storeId
    then Err("valid history commits belong to different stores")
    else
      var slot := if !Usable(img, 1) || (Usable(img, 0) && CommitAt(img, 0).generation > CommitAt(img, 1).generation)
                  then 0 else 1;
      Ok(Some(Recovered(CommitAt(img, slot), TailOf(img, CommitAt(img, slot), limit))))
  }

  /** `recover_history_candidate`: the chunked read, with reads of any size. */
  method RecoverCandidate(img: Image, c: Commit, limit: nat) returns (r: Result<Recovered>)
    requires img.Shaped() && c.dataSlot < BANK_COUNT
    ensures r.Ok? <==> BankValidates(img, c)
    ensures r.Ok? ==> r.value == Recovered(c, TailOf(img, c, limit))
  {
    if img.banks[c.dataSlot].None? { return Err("history data bank is missing"); }
    var bank := img.banks[c.dataSlot].value;
    if PhysicalLen(bank) < BANK_HEADER_BYTES + c.committedLen {
      return Err("history data bank is shorter than its committed prefix");
    }
    if PhysicalLen(bank) > BANK_HEADER_BYTES + 2 * c.capacity {
      return Err("history data bank exceeds its bounded physical size");
    }
    if bank.header != Header(c.storeId, c.bankGeneration, c.dataSlot, c.capacity) {
      return Err("history data bank does not match its commit metadata");
    }
    var payload := bank.payload[..c.committedLen];
    var count := Min(Min(limit, c.capacity), c.committedLen);
    var hashed, tail := [], [];
    var position := 0;
    while position < c.committedLen
      invariant 0 <= position <= c.committedLen
      invariant hashed == payload[..position]
      invariant tail == Last(payload[..position], count)
    {
      var read :| 1 <= read <= c.committedLen - position;
      var chunk := payload[position..position + read];
      assert payload[..position + read] == payload[..position] + chunk;
      LastOfGrown(payload[..position], chunk, count);
      hashed := hashed + chunk;
      if |chunk| >= count {
        tail := chunk[|chunk| - count..];
      } else {
        tail := tail + chunk;
        tail := tail[Max(0, |tail| - count)..];
      }
      position := position + read;
    }
    assert payload[..position] == payload;
    if Digest(hashed) != c.digest { return Err("history data checksum mismatch"); }
    return Ok(Recovered(c, tail));
  }

  /** `recover_v2_history`: try both slots, order by generation, take the newest. */
  method RecoverV2(img: Image, limit: nat) returns (r: Result<Option<Recovered>>)
    requires img.Shaped()
    ensures r == Recover(img, limit)
  {
    if Oversized(img.banks[0]) || Oversized(img.banks[1]) { return Err("bank exceeds the hard cap"); }
    if img.marker == Some(Torn) { return Err("history marker is invalid"); }
    var metadataSeen := false;
    var valid: seq<Recovered> := [];
    var slot := 0;
    while slot < COMMIT_COUNT
      invariant 0 <= slot <= COMMIT_COUNT
      invariant metadataSeen <==> exists s :: 0 <= s < slot && img.commits[s].Some?
      invariant valid == (if slot > 0 then CandidateOf(img, 0, limit) else [])
                         + (if slot > 1 then CandidateOf(img, 1, limit) else [])
    {
      match img.commits[slot] {
        case None =>
        case Some(Torn) => metadataSeen := true;
        case Some(Sealed(c)) =>
          metadataSeen := true;
          if WellFormed(c, slot) && MarkerAgrees(img, c) {
            var candidate := RecoverCandidate(img, c, limit);
            if candidate.Ok? { valid := valid + [candidate.value]; }
          }
      }
      slot := slot + 1;
    }
    if valid == [] {
      if metadataSeen || img.marker.Some? { return Err("no valid committed history generation remains"); }
      return Ok(None);
    }
    if |valid| == 2 {
      if img.marker.None? && valid[1].commit.storeId != valid[0].commit.storeId {
        return Err("valid history commits belong to different stores");
      }
      if valid[1].commit.generation < valid[0].commit.generation {
        valid := [valid[1], valid[0]];
      }
      // The two slots hold generations of different parity, so the source's
      // equal-generation conflict cannot arise here.
      assert valid[0].commit.generation != valid[1].commit.generation;
    }
    return Ok(Some(valid[|valid| - 1]));
  }

  function CandidateOf(img: Image, slot: nat, limit: nat): seq<Recovered>
    requires img.Shaped() && slot < COMMIT_COUNT
  {
    if Usable(img, slot) then [Recovered(CommitAt(img, slot), TailOf(img, CommitAt(img, slot), limit))] else []
  }

  /** `read_persisted_history_tail`, with the legacy file as the fallback. */
  function ReadTail(img: Image, requested: Option<nat>): Result<seq<Byte>>
    requires img.Shaped()
  {
    var limit := Min(if requested.Some? then requested.value else MAX_HISTORY_BYTES, MAX_HISTORY_BYTES);
    match Recover(img, limit)
    case Err(e) => Err(e)
    case Ok(Some(r)) => Ok(r.tail)
    case Ok(None) => Ok(if img.raw.Some? then Last(img.raw.value, limit) else [])
  }

  // ---- What a crash may leave --------------------------------------------

  /** A directory entry, with the versions a power loss may still bring back. */
  datatype Versions<T(==)> = Versions(now: Option<T>, older: set<Option<T>>)
  {
    predicate Shows(v: Option<T>) {
      v == now || v in older
    }

    /** No crash can bring the file into being. */
    predicate Absent() {
      now.None? && older <= {None}
    }

    /** Renamed over, directory not yet synced. */
    function Replaced(x: T): Versions<T> {
      Versions(Some(x), older + {now})
    }

    function Settled(): Versions<T> {
      Versions(now, {})
    }
  }

  /** Until the directory is synced a rename may be lost, and after that it may not. */
  lemma UnsyncedRenameMayBeLost<T(!new)>(v: Versions<T>, x: T)
    ensures v.Replaced(x).Shows(v.now) && v.Replaced(x).Shows(Some(x))
    ensures forall y :: v.Shows(y) ==> v.Replaced(x).Shows(y)
    ensures forall y :: v.Replaced(x).Settled().Shows(y) <==> y == Some(x)
  {
  }

  /** An open bank: bytes past `synced` may be lost or garbled, up to length `reach`. */
  datatype BankFile = BankFile(bank: Bank, synced: nat, reach: nat)
  {
    predicate Shaped() {
      synced <= |bank.payload| <= reach
    }
  }

  predicate Survives(f: BankFile, b: Bank)
    requires f.Shaped()
  {
    && b.header == f.bank.header
    && f.synced <= |b.payload| <= f.reach
    && b.payload[..f.synced] == f.bank.payload[..f.synced]
  }

  datatype Disk = Disk(banks: seq<Versions<BankFile>>, commits: seq<Versions<Commit>>,
                       marker: Versions<nat>)
  {
    ghost predicate Shaped() {
      && |banks| == BANK_COUNT && |commits| == COMMIT_COUNT
      && (forall i, f :: 0 <= i < BANK_COUNT && banks[i].Shows(Some(f)) ==> f.Shaped())
    }

    /** A successful directory sync: every entry shows its newest version only. */
    function Settled(): Disk
      requires |banks| == BANK_COUNT && |commits| == COMMIT_COUNT
    {
      Disk([banks[0].Settled(), banks[1].Settled()], [commits[0].Settled(), commits[1].Settled()],
           marker.Settled())
    }
  }

  ghost predicate BankMayShow(v: Versions<BankFile>, b: Option<Bank>)
    requires forall f :: v.Shows(Some(f)) ==> f.Shaped()
  {
    match b
    case None => v.Shows(None)
    case Some(bank) => exists f :: v.Shows(Some(f)) && Survives(f, bank)
  }

  ghost predicate MetaMayShow<T>(v: Versions<T>, m: Option<Meta<T>>) {
    match m
    case None => v.Shows(None)
    case Some(Torn) => false
    case Some(Sealed(x)) => v.Shows(Some(x))
  }

  /** `img` is one thing a reader may find if the machine stops now. */
  ghost predicate CrashImage(d: Disk, img: Image) {
    && d.Shaped() && img.Shaped()
    && (forall i :: 0 <= i < BANK_COUNT ==> BankMayShow(d.banks[i], img.banks[i]))
    && (forall i :: 0 <= i < COMMIT_COUNT ==> MetaMayShow(d.commits[i], img.commits[i]))
    && MetaMayShow(d.marker, img.marker)
  }
}
