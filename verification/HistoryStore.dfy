/**
 `History`: the in-memory ring over the raw file and the two-bank store, with
 `append`, `flush` and `flush_final`.
 */
module HistoryStore {
  import opened Basics
  import opened HistoryDisk
  import opened HistoryAnchor
  import opened HistoryStages
  import opened HistoryV2
  import opened HistoryTrace
  import Raw = HistoryRaw

  /** `pop_front` until at most `cap` bytes remain. */
  method PopToCapacity(queue: seq<Byte>, cap: nat) returns (r: seq<Byte>)
    ensures r == Last(queue, cap)
  {
    r := queue;
    while |r| > cap
      invariant r == queue[|queue| - |r|..]
      invariant |r| >= Min(|queue|, cap)
    {
      r := r[1..];
    }
  }

  lemma LastEnds(s: seq<Byte>, n: nat)
    ensures EndsWith(s, Last(s, n), Min(n, |s|))
  {
  }

  lemma EndIsLast(s: seq<Byte>, r: seq<Byte>, n: nat)
    requires EndsWith(s, r, Min(n, |s|))
    ensures r == Last(s, n)
  {
    LastEnds(s, n);
  }

  /** `queue` holds the last of the `n` newest bytes of `s`; add `data` and keep the last again. */
  method Push(queue: seq<Byte>, data: seq<Byte>, cap: nat, ghost s: seq<Byte>, ghost n: nat) returns (r: seq<Byte>)
    requires n <= |s| && EndsWith(s, queue, Min(cap, n))
    ensures EndsWith(s + data, r, Min(cap, n + |data|))
  {
    if |data| >= cap {
      r := data[|data| - cap..];
      EndOfData(s, data, r, cap);
    } else {
      r := PopToCapacity(queue + data, cap);
      LastEnds(queue + data, cap);
      EndOfBoth(s, queue, data, r, Min(cap, n), Min(cap, n + |data|));
    }
  }

  lemma EndOfData(s: seq<Byte>, data: seq<Byte>, r: seq<Byte>, n: nat)
    requires n <= |data| && r == data[|data| - n..]
    ensures EndsWith(s + data, r, n)
  {
  }

  lemma EndOfBoth(s: seq<Byte>, queue: seq<Byte>, data: seq<Byte>, r: seq<Byte>, m: nat, n: nat)
    requires EndsWith(s, queue, m) && EndsWith(queue + data, r, n)
    ensures EndsWith(s + data, r, n)
  {
  }

  /** Consecutive compactions lie more than `cap` observed bytes apart. */
  ghost predicate Spaced(ends: seq<nat>, cap: nat) {
    forall i :: 0 < i < |ends| ==> ends[i] - ends[i - 1] > cap
  }

  // ---- How much is written ------------------------------------------------

  /** How the committed length and the bytes written follow the stream. */
  ghost predicate WriteBound(compactions: seq<nat>, persisted: Option<Commit>, cap: nat, durableEnd: nat,
                             written: nat)
  {
    match persisted
    case None => compactions == [] && written == 0
    case Some(c) =>
      && |compactions| > 0 && Spaced(compactions, cap)
      && var last := compactions[|compactions| - 1];
         && last <= durableEnd
         && c.committedLen == (if cap > 0 then Min(cap, last) + durableEnd - last else 0)
         && c.committedLen <= 2 * cap
         && written <= durableEnd + last
  }

  lemma AppendKeepsBound(compactions: seq<nat>, c: Commit, cap: nat, durableEnd: nat, written: nat,
                         observedEnd: nat, pending: seq<Byte>)
    requires WriteBound(compactions, Some(c), cap, durableEnd, written)
    requires durableEnd <= observedEnd && |pending| == (if cap > 0 then observedEnd - durableEnd else 0)
    requires c.committedLen + |pending| <= 2 * cap
    ensures WriteBound(compactions, Some(AppendedCommit(c, cap, observedEnd, pending)), cap, observedEnd,
                       written + |pending|)
  {
  }

  /** A compaction of a committed store happens only after more than `cap` new bytes. */
  lemma CompactionKeepsBound(compactions: seq<nat>, c: Commit, cap: nat, durableEnd: nat, written: nat,
                             observedEnd: nat, pending: nat, next: Commit)
    requires WriteBound(compactions, Some(c), cap, durableEnd, written)
    requires durableEnd <= observedEnd && pending == Min(cap, observedEnd - durableEnd)
    requires (cap > 0 && observedEnd - durableEnd != pending) || c.committedLen + pending > 2 * cap
    requires next.committedLen == Min(cap, observedEnd)
    ensures WriteBound(compactions + [observedEnd], Some(next), cap, observedEnd, written + next.committedLen)
  {
    assert cap > 0;
  }

  /** The same, or the first compaction, before which nothing was written. */
  lemma CompactionBound(compactions: seq<nat>, persisted: Option<Commit>, cap: nat, durableEnd: nat, written: nat,
                        observedEnd: nat, pending: nat, next: Commit)
    requires WriteBound(compactions, persisted, cap, durableEnd, written)
    requires durableEnd <= observedEnd && pending == Min(cap, observedEnd - durableEnd)
    requires persisted.Some? ==> (cap > 0 && observedEnd - durableEnd != pending)
                                 || persisted.value.committedLen + pending > 2 * cap
    requires next.committedLen == Min(cap, observedEnd)
    ensures WriteBound(compactions + [observedEnd], Some(next), cap, observedEnd, written + next.committedLen)
  {
    if persisted.Some? {
      CompactionKeepsBound(compactions, persisted.value, cap, durableEnd, written, observedEnd, pending, next);
    }
  }

  /** The acknowledgement is a step of its own. */
  lemma AcknowledgedTrace(trail: seq<CrashPoint>, w: V2, next: Commit, cap: nat, stream: seq<Byte>)
    requires Traced(trail, w.Point(cap, stream)) && Anchored(w.disk, next, cap, stream)
    requires EndOf(w.persisted) <= next.streamEnd
    ensures var p := w.(persisted := Some(next)).Point(cap, stream);
            Traced(trail + [p], p) && trail <= trail + [p] && (trail + [p])[0] == trail[0]
  {
    TraceOn(trail, w.Point(cap, stream), w.(persisted := Some(next)).Point(cap, stream));
  }

  class History {
    const cap: nat
    var bytes: seq<Byte>
    var pending: seq<Byte>
    var dirty: bool
    var observedEnd: nat
    var durableEnd: nat
    var compatibility: Raw.RawView
    var v2: V2
    var dataBytesWritten: nat
    /** Everything ever appended. */
    ghost var stream: seq<Byte>
    /** The stream positions of the successful compactions. */
    ghost var compactions: seq<nat>
    /** Every point at which the machine may have stopped so far. */
    ghost var trail: seq<CrashPoint>

    /** The ring and the queue are the ends of what was observed. */
    ghost predicate MemoryOk()
      reads this`stream, this`observedEnd, this`durableEnd, this`bytes, this`pending, this`dirty
    {
      && cap <= MAX_HISTORY_BYTES
      && durableEnd <= observedEnd == |stream| <= U64_MAX
      && EndsWith(stream, bytes, Min(cap, observedEnd))
      && EndsWith(stream, pending, Min(cap, observedEnd - durableEnd))
      && (!dirty ==> durableEnd == observedEnd)
    }

    ghost predicate FilesOk()
      reads this`stream, this`compatibility, this`v2, this`durableEnd, this`trail
    {
      && compatibility.Tracks(cap, stream)
      && v2.Ok(cap, stream) && durableEnd == EndOf(v2.persisted) && CountersFit(v2.persisted)
      && Traced(trail, v2.Point(cap, stream)) && trail[0] == EMPTY_STORE.Point(cap, [])
    }

    ghost predicate Valid()
      reads this
    {
      && MemoryOk() && FilesOk()
      && WriteBound(compactions, v2.persisted, cap, durableEnd, dataBytesWritten)
    }

    /** Where the run is now. */
    ghost function Here(): CrashPoint
      reads this`v2, this`stream
    {
      v2.Point(cap, stream)
    }

    /** Recovery is promised at every point from position `from` on. */
    ghost predicate PromisedSince(from: nat)
      reads this`trail
    {
      forall j :: from <= j < |trail| ==> Promised(trail[j])
    }

    /** Something was acknowledged, or no earlier attempt at a first commit left anything. */
    ghost predicate ReadyToPublish()
      requires Valid()
      reads this
    {
      v2.persisted.Some? || Untouched(v2.disk)
    }

    /** Nothing fails, and the promise holds now and will hold while publishing. */
    ghost predicate Reliable()
      requires Valid()
      reads this
    {
      v2.steady && compatibility.steady && ReadyToPublish() && Promised(Here())
    }

    /** `History::open` on an empty directory. */
    constructor (cap: nat, steady: bool)
      requires cap <= MAX_HISTORY_BYTES
      ensures Valid() && this.cap == cap && stream == [] && v2.persisted.None? && v2.cleanStart
      ensures trail == [Here()] && v2 == EMPTY_STORE.(steady := steady)
      ensures compatibility.faults == 0 && compatibility.steady == steady
    {
      this.cap := cap;
      bytes, pending, dirty, observedEnd, durableEnd := [], [], false, 0, 0;
      compatibility := Raw.RawView(None, 0, 0, true, 0, steady);
      v2 := EMPTY_STORE.(steady := steady);
      dataBytesWritten := 0;
      stream, compactions := [], [];
      trail := [EMPTY_STORE.Point(cap, [])];
    }

    /** The in-memory part of `append`. */
    method Observe(data: seq<Byte>)
      requires MemoryOk() && observedEnd + |data| <= U64_MAX
      modifies this`bytes, this`pending, this`observedEnd, this`dirty, this`stream
      ensures MemoryOk() && dirty && stream == old(stream) + data
    {
      if cap > 0 {
        bytes := Push(bytes, data, cap, stream, |stream|);
        pending := Push(pending, data, cap, stream, observedEnd - durableEnd);
      }
      stream := stream + data;
      observedEnd := observedEnd + |data|;
      dirty := true;
    }

    /** `append`: the ring and the queue only; the disk is not touched. */
    method Append(data: seq<Byte>) returns (r: Result<()>)
      requires Valid()
      modifies this`bytes, this`pending, this`observedEnd, this`dirty, this`stream, this`trail
      ensures Valid() && old(trail) <= trail
      ensures r.Ok? <==> old(observedEnd) + |data| <= U64_MAX
      ensures stream == if r.Ok? then old(stream) + data else old(stream)
      ensures r.Ok? ==> dirty
      ensures v2 == old(v2) && (old(Promised(Here())) ==> PromisedSince(|old(trail)|))
    {
      if observedEnd + |data| > U64_MAX { return Err("history stream position overflow"); }
      GrownStreamHolds(v2.disk, v2.persisted, cap, stream, data, v2.cleanStart, v2.freshId);
      Raw.GrownStreamTracks(compatibility, cap, stream, data);
      TraceOn(trail, v2.Point(cap, stream), v2.Point(cap, stream + data));
      Observe(data);
      trail := trail + [v2.Point(cap, stream)];
      return Ok(());
    }

    /** The last steps of both publications: everything observed is durable. */
    method Acknowledge(w: V2, written: nat, ghost ends: seq<nat>, ghost grown: seq<CrashPoint>)
      requires MemoryOk() && compatibility.Tracks(cap, stream) && CountersFit(w.persisted)
      requires Traced(grown, w.Point(cap, stream)) && grown[0] == EMPTY_STORE.Point(cap, [])
      requires w.Ok(cap, stream) && w.persisted.Some? && w.persisted.value.streamEnd == observedEnd
      requires WriteBound(ends, w.persisted, cap, observedEnd, dataBytesWritten + written)
      modifies this`v2, this`trail, this`durableEnd, this`pending, this`dirty, this`dataBytesWritten,
               this`compactions
      ensures Valid() && !dirty && durableEnd == observedEnd && v2 == w && trail == grown && compactions == ends
      ensures dataBytesWritten == old(dataBytesWritten) + written
    {
      dataBytesWritten, compactions := dataBytesWritten + written, ends;
      v2, trail := w, grown;
      durableEnd, pending, dirty := observedEnd, [], false;
    }

    /** The store acknowledges the commit it has just published. */
    method Settle(w: V2, next: Commit, written: nat, ghost ends: seq<nat>, ghost grown: seq<CrashPoint>)
      requires MemoryOk() && compatibility.Tracks(cap, stream) && Published(v2, w, Ok(()), next, cap, stream)
      requires Traced(grown, w.Point(cap, stream)) && grown[0] == EMPTY_STORE.Point(cap, []) && v2.Extends(trail, grown)
      requires next.streamEnd == observedEnd && EndOf(v2.persisted) == durableEnd && CountersFit(v2.persisted)
      requires WriteBound(ends, Some(next), cap, observedEnd, dataBytesWritten + written)
      modifies this`v2, this`trail, this`durableEnd, this`pending, this`dirty, this`dataBytesWritten,
               this`compactions
      ensures Valid() && !dirty && durableEnd == observedEnd && v2.persisted.Some? && old(trail) <= trail
      ensures old(Promised(Here())) ==> PromisedSince(|old(trail)|)
      ensures v2.steady == old(v2.steady)
    {
      AcknowledgedTrace(grown, w, next, cap, stream);
      var acknowledged := w.(persisted := Some(next));
      Acknowledge(acknowledged, written, ends, grown + [acknowledged.Point(cap, stream)]);
    }

    /** A publication failed: only what is on disk may have changed. */
    method Abandon(w: V2, ghost grown: seq<CrashPoint>)
      requires Valid() && w.Ok(cap, stream) && w.persisted == v2.persisted
      requires Traced(grown, w.Point(cap, stream)) && grown[0] == EMPTY_STORE.Point(cap, [])
      modifies this`v2, this`trail
      ensures Valid() && v2 == w && trail == grown
    {
      v2, trail := w, grown;
    }

    /** A failed flush changes nothing that was acknowledged, and will be retried. */
    twostate predicate Retained()
      reads this
    {
      && v2.persisted == old(v2.persisted) && durableEnd == old(durableEnd) && dirty
      && compactions == old(compactions) && dataBytesWritten == old(dataBytesWritten)
    }

    /** A publication came back: acknowledge its commit, or keep what was acknowledged before. */
    method Finish(w: V2, r: Result<()>, next: Commit, written: nat, ghost ends: seq<nat>, ghost grown: seq<CrashPoint>)
      requires Valid() && dirty && Published(v2, w, r, next, cap, stream)
      requires Traced(grown, w.Point(cap, stream)) && v2.Extends(trail, grown)
      requires next.streamEnd == observedEnd
      requires WriteBound(ends, Some(next), cap, observedEnd, dataBytesWritten + written)
      modifies this`v2, this`trail, this`durableEnd, this`pending, this`dirty, this`dataBytesWritten,
               this`compactions
      ensures Valid() && old(trail) <= trail && (old(Promised(Here())) ==> PromisedSince(|old(trail)|))
      ensures r.Ok? ==> !dirty && durableEnd == observedEnd && v2.persisted.Some?
      ensures r.Err? ==> Retained() && Excused(old(v2), v2)
      ensures old(v2.Wedged()) ==> v2.Wedged()
      ensures v2.steady == old(v2.steady)
    {
      assert grown[0] == trail[0];
      if r.Ok? {
        Settle(w, next, written, ends, grown);
      } else {
        Abandon(w, grown);
      }
    }

    /** `publish_append`. */
    method PublishAppend() returns (r: Result<()>)
      requires Valid() && dirty && v2.persisted.Some?
      requires cap == 0 || observedEnd - durableEnd == |pending|
      requires v2.persisted.value.committedLen + |pending| <= 2 * cap
      modifies this`v2, this`trail, this`durableEnd, this`pending, this`dirty, this`dataBytesWritten,
               this`compactions
      ensures Valid() && old(trail) <= trail && (old(Promised(Here())) ==> PromisedSince(|old(trail)|))
      ensures r.Ok? ==> !dirty && durableEnd == observedEnd && v2.persisted.Some?
      ensures r.Err? ==> Retained() && Excused(old(v2), v2)
      ensures v2.steady == old(v2.steady)
    {
      var c := v2.persisted.value;
      var next := AppendedCommit(c, cap, observedEnd, pending);
      AppendedFaithful(c, cap, stream, pending);
      AppendKeepsBound(compactions, c, cap, durableEnd, dataBytesWritten, observedEnd, pending);
      var w;
      ghost var grown;
      w, r, grown := AppendAndSeal(v2, c, pending, cap, observedEnd, stream, trail);
      Finish(w, r, next, |pending|, compactions, grown);
    }

    /** `publish_compaction`. */
    method PublishCompaction() returns (r: Result<()>)
      requires Valid() && dirty
      requires v2.persisted.None? && v2.cleanStart ==> Untouched(v2.disk)
      requires v2.persisted.Some? ==> (cap > 0 && observedEnd - durableEnd != |pending|)
                                      || v2.persisted.value.committedLen + |pending| > 2 * cap
      modifies this`v2, this`trail, this`durableEnd, this`pending, this`dirty, this`dataBytesWritten,
               this`compactions
      ensures Valid() && old(trail) <= trail && (old(Promised(Here())) ==> PromisedSince(|old(trail)|))
      ensures r.Ok? ==> !dirty && durableEnd == observedEnd && v2.persisted.Some?
      ensures r.Err? ==> Retained() && Excused(old(v2), v2)
      ensures old(v2.Wedged()) ==> r.Err? && v2.Wedged()
      ensures v2.steady == old(v2.steady)
    {
      EndIsLast(stream, bytes, cap);
      var next := CompactionOf(v2, cap, observedEnd, bytes);
      CompactionBound(compactions, v2.persisted, cap, durableEnd, dataBytesWritten, observedEnd, |pending|, next);
      var w;
      ghost var grown;
      w, r, grown := CompactAndSeal(v2, cap, observedEnd, bytes, stream, trail);
      Finish(w, r, next, |bytes|, compactions + [observedEnd], grown);
    }

    /** Choose between the two publications. */
    method PublishV2() returns (r: Result<()>)
      requires Valid() && dirty && (v2.persisted.None? && v2.cleanStart ==> Untouched(v2.disk))
      modifies this`v2, this`trail, this`durableEnd, this`pending, this`dirty, this`dataBytesWritten,
               this`compactions
      ensures Valid() && old(trail) <= trail && (old(Promised(Here())) ==> PromisedSince(|old(trail)|))
      ensures r.Ok? ==> !dirty && durableEnd == observedEnd && v2.persisted.Some?
      ensures r.Err? ==> Retained() && Excused(old(v2), v2)
      ensures old(v2.Wedged()) ==> r.Err? && v2.Wedged()
      ensures v2.steady == old(v2.steady)
    {
      if v2.persisted.None? {
        r := PublishCompaction();
        return;
      }
      var contiguous := cap == 0 || observedEnd - durableEnd == |pending|;
      if !contiguous || v2.persisted.value.committedLen + |pending| > 2 * cap {
        r := PublishCompaction();
      } else {
        r := PublishAppend();
      }
    }

    /** The v2 part of `flush`; `cleanStart` records whether a first commit starts on an empty store. */
    method StartPublication() returns (r: Result<()>)
      requires Valid() && dirty
      modifies this`v2, this`trail, this`durableEnd, this`pending, this`dirty, this`dataBytesWritten,
               this`compactions
      ensures Valid() && old(trail) <= trail && (old(ReadyToPublish()) ==> PromisedSince(|old(trail)|))
      ensures r.Ok? ==> !dirty && durableEnd == observedEnd && v2.persisted.Some?
      ensures r.Err? ==> Retained() && Excused(old(v2), v2)
      ensures old(v2.Wedged()) ==> r.Err? && v2.Wedged()
      ensures v2.steady == old(v2.steady)
    {
      BeginAttempt();
      r := PublishV2();
    }

    /** Record whether a first commit starts on an empty store. */
    method BeginAttempt()
      requires Valid() && dirty
      modifies this`v2, this`trail
      ensures Valid() && v2 == old(v2).(cleanStart := v2.cleanStart)
      ensures v2.cleanStart <==> v2.persisted.None? && Untouched(v2.disk)
      ensures old(trail) <= trail && forall j :: |old(trail)| <= j < |trail| ==> trail[j] == Here()
    {
      ghost var was := v2.Point(cap, stream);
      v2 := v2.(cleanStart := v2.persisted.None? && Untouched(v2.disk));
      TraceOn(trail, was, v2.Point(cap, stream));
      trail := trail + [v2.Point(cap, stream)];
    }

    /** `flush_legacy_compatibility`. */
    method FlushRaw() returns (ok: bool)
      requires Valid()
      modifies this`compatibility
      ensures Valid() && old(compatibility).Reports(compatibility, ok)
      ensures ok ==> Last(compatibility.Content(), cap) == bytes
      ensures trail == old(trail) && v2 == old(v2) && durableEnd == old(durableEnd) && bytes == old(bytes)
    {
      EndIsLast(stream, bytes, cap);
      compatibility, ok := Raw.Flush(compatibility, cap, bytes, observedEnd, stream);
      if ok { Raw.UpToDateEndsWithRing(compatibility, cap, stream); }
    }

    /** `flush`: the raw view first, then the v2 store. */
    method Flush() returns (r: Result<()>)
      requires Valid()
      modifies this`compatibility, this`v2, this`trail, this`durableEnd, this`pending, this`dirty,
               this`dataBytesWritten, this`compactions
      ensures Valid() && old(trail) <= trail && (old(ReadyToPublish()) ==> PromisedSince(|old(trail)|))
      ensures r.Ok? ==> !dirty && durableEnd == observedEnd && old(compatibility).Reports(compatibility, true)
      ensures r.Ok? && old(dirty) ==>
                v2.persisted.Some? && Last(compatibility.Content(), cap) == bytes
      ensures r.Err? ==> Retained() && (Excused(old(v2), v2) || old(compatibility).Reports(compatibility, false))
      ensures old(dirty && v2.Wedged()) ==> r.Err? && v2.Wedged()
      ensures stream == old(stream) && bytes == old(bytes)
      ensures old(Reliable()) ==> Reliable()
    {
      if dirty {
        r := FlushDirty();
      } else {
        r := Ok(());
      }
    }

    method FlushDirty() returns (r: Result<()>)
      requires Valid() && dirty
      modifies this`compatibility, this`v2, this`trail, this`durableEnd, this`pending, this`dirty,
               this`dataBytesWritten, this`compactions
      ensures Valid() && old(trail) <= trail && (old(ReadyToPublish()) ==> PromisedSince(|old(trail)|))
      ensures r.Ok? ==> !dirty && durableEnd == observedEnd && old(compatibility).Reports(compatibility, true)
      ensures r.Ok? ==> v2.persisted.Some? && Last(compatibility.Content(), cap) == bytes
      ensures r.Err? ==> Retained() && (Excused(old(v2), v2) || old(compatibility).Reports(compatibility, false))
      ensures old(v2.Wedged()) ==> r.Err? && v2.Wedged()
      ensures stream == old(stream) && bytes == old(bytes)
      ensures old(Reliable()) ==> Reliable()
    {
      var ok := FlushRaw();
      if ok {
        r := StartPublication();
      } else {
        r := Err("legacy history");
      }
    }

    /** `flush_final`: then rewrite the raw file as exactly the ring. */
    method FlushFinal() returns (r: Result<()>)
      requires Valid()
      modifies this`compatibility, this`v2, this`trail, this`durableEnd, this`pending, this`dirty,
               this`dataBytesWritten, this`compactions
      ensures Valid() && old(trail) <= trail && (old(ReadyToPublish()) ==> PromisedSince(|old(trail)|))
      ensures r.Ok? ==> durableEnd == observedEnd && compatibility.file == if cap == 0 then None else Some(bytes)
      ensures r.Err? ==> Excused(old(v2), v2) || old(compatibility).Reports(compatibility, false)
      ensures stream == old(stream) && bytes == old(bytes)
      ensures old(Reliable()) ==> Reliable()
    {
      r := Flush();
      if r.Ok? { r := RepairRaw(); }
    }

    /** `repair_legacy_compatibility`. */
    method RepairRaw() returns (r: Result<()>)
      requires Valid()
      modifies this`compatibility
      ensures Valid() && (r.Ok? ==> compatibility.file == if cap == 0 then None else Some(bytes))
      ensures r.Err? ==> old(compatibility).Reports(compatibility, false)
      ensures trail == old(trail) && v2 == old(v2) && durableEnd == old(durableEnd) && bytes == old(bytes)
      ensures compatibility.steady == old(compatibility.steady)
    {
      var ok;
      EndIsLast(stream, bytes, cap);
      compatibility, ok := Raw.Repair(compatibility, cap, bytes, observedEnd, stream);
      r := if ok then Ok(()) else Err("legacy history");
    }

    /** `snapshot`. */
    method Snapshot(max: Option<nat>) returns (r: seq<Byte>)
      requires Valid()
      ensures r == Last(stream, if max.Some? then Min(cap, max.value) else cap)
    {
      EndIsLast(stream, bytes, cap);
      r := RingTail(bytes, max, cap, stream);
    }
  }

  method RingTail(bytes: seq<Byte>, max: Option<nat>, ghost cap: nat, ghost stream: seq<Byte>) returns (r: seq<Byte>)
    requires bytes == Last(stream, cap)
    ensures r == Last(stream, if max.Some? then Min(cap, max.value) else cap)
  {
    var count := Min(if max.Some? then max.value else |bytes|, |bytes|);
    LastOfLast(stream, cap, if max.Some? then max.value else cap);
    return bytes[|bytes| - count..];
  }

  datatype Op = Append(data: seq<Byte>) | Flush | FlushFinal

  /** What one operation adds to the stream: an append past the last 64-bit position is refused. */
  function Observes(stream: seq<Byte>, op: Op): seq<Byte> {
    if op.Append? && |stream| + |op.data| <= U64_MAX then stream + op.data else stream
  }

  /** What has been observed after these operations. */
  function Observed(ops: seq<Op>): seq<Byte> {
    if ops == [] then [] else Observes(Observed(ops[..|ops| - 1]), ops[|ops| - 1])
  }

  lemma ObservedNext(ops: seq<Op>, i: nat)
    requires i < |ops|
    ensures Observed(ops[..i + 1]) == Observes(Observed(ops[..i]), ops[i])
  {
    assert ops[..i + 1][..i] == ops[..i];
  }

  /** The points after the first operations, one by one: each with the stream observed by then. */
  ghost predicate Passed(points: seq<CrashPoint>, cap: nat, ops: seq<Op>) {
    && 0 < |points| <= |ops| + 1
    && forall i :: 0 <= i < |points| ==> points[i].cap == cap && points[i].stream == Observed(ops[..i])
  }

  lemma PassedOn(points: seq<CrashPoint>, cap: nat, ops: seq<Op>, p: CrashPoint)
    requires Passed(points, cap, ops) && |points| <= |ops|
    requires p.cap == cap && p.stream == Observed(ops[..|points|])
    ensures Passed(points + [p], cap, ops)
  {
  }

  /**
   Any sequence of operations on a fresh store, with any operations failing: the stream
   is what was appended, and the state after every prefix is among the crash points. On a
   steady machine recovery is promised at all of them.
   */
  method Run(cap: nat, steady: bool, ops: seq<Op>) returns (h: History, ghost points: seq<CrashPoint>)
    requires cap <= MAX_HISTORY_BYTES
    ensures h.Valid() && h.cap == cap && h.stream == Observed(ops)
    ensures |points| == |ops| + 1 && Passed(points, cap, ops)
    ensures forall p :: p in points ==> p in h.trail
    ensures steady ==> h.PromisedSince(0)
  {
    h := new History(cap, steady);
    points := [EMPTY_STORE.Point(cap, [])];
    assert ops[..0] == [];
    for i := 0 to |ops|
      invariant fresh(h) && h.Valid() && h.cap == cap && h.stream == Observed(ops[..i])
      invariant |points| == i + 1 && Passed(points, cap, ops)
      invariant forall p :: p in points ==> p in h.trail
      invariant steady ==> h.Reliable() && h.PromisedSince(0)
    {
      ghost var p := Step(h, ops[i]);
      ObservedNext(ops, i);
      PassedOn(points, cap, ops, p);
      points := points + [p];
    }
    assert ops[..|ops|] == ops;
  }

  method Step(h: History, op: Op) returns (ghost p: CrashPoint)
    requires h.Valid()
    modifies h
    ensures h.Valid() && old(h.trail) <= h.trail && h.stream == Observes(old(h.stream), op)
    ensures p in h.trail && p == h.v2.Point(h.cap, h.stream)
    ensures old(h.Reliable()) ==> h.Reliable() && h.PromisedSince(|old(h.trail)|)
  {
    var r;
    match op {
      case Append(data) => r := h.Append(data);
      case Flush => r := h.Flush();
      case FlushFinal => r := h.FlushFinal();
    }
    p := h.v2.Point(h.cap, h.stream);
  }
}
