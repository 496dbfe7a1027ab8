/**
 The raw `history.bin` kept for clients that know nothing else: appended to while
 it is known to continue the stream, rewritten from the ring otherwise.
 */
module HistoryRaw {
  import opened Basics
  import opened HistoryDisk

  /**
   The file (absent or its bytes), the stream position and length this worker
   believes it has, and how many operations on it have failed. On a `steady` machine
   none does.
   */
  datatype RawView = RawView(file: Option<seq<Byte>>, end: nat, len: nat, known: bool, faults: nat, steady: bool)
  {
    function Content(): seq<Byte> {
      if file.Some? then file.value else []
    }

    /** While its position is known, the file is a contiguous piece of the stream: no gap, no duplicate. */
    ghost predicate Tracks(cap: nat, stream: seq<Byte>) {
      && end <= |stream|
      && (known ==> Min(cap, end) <= len <= Min(2 * cap, end) && Content() == Piece(stream, end, len))
    }

    /** The file ends with the ring. */
    predicate UpToDate(observedEnd: nat) {
      known && end == observedEnd
    }

    /** What is new is still in the ring, the file is as this worker left it, and there is room in it. */
    predicate Appendable(cap: nat, bytes: seq<Byte>, observedEnd: nat) {
      && cap > 0 && known && file.Some? && |file.value| == len && end <= observedEnd
      && observedEnd - end <= |bytes| && len + (observedEnd - end) <= 2 * cap
    }

    function Failed(): RawView {
      this.(faults := faults + 1)
    }

    /** What an operation reports: on the way to `w` something failed, or nothing did. */
    predicate Reports(w: RawView, ok: bool) {
      w.steady == steady && if ok then w.faults == faults else faults < w.faults && !steady
    }
  }

  /** What an older client sees after a successful flush: the last `cap` bytes are the ring. */
  lemma UpToDateEndsWithRing(v: RawView, cap: nat, stream: seq<Byte>)
    requires v.Tracks(cap, stream) && v.UpToDate(|stream|)
    ensures Last(v.Content(), cap) == Last(stream, cap)
  {
    assert stream[..|stream|] == stream;
    LastOfPiece(stream, |stream|, v.len, cap);
  }

  /** Observing more output leaves the file where it was. */
  lemma GrownStreamTracks(v: RawView, cap: nat, stream: seq<Byte>, data: seq<Byte>)
    requires v.Tracks(cap, stream)
    ensures v.Tracks(cap, stream + data)
  {
    if v.known { PieceOfGrown(stream, data, v.end, v.len); }
  }

  /** Whether the next operation fails. */
  method Fails(v: RawView) returns (fails: bool)
    ensures v.steady ==> !fails
  {
    fails := false;
    if !v.steady { fails := *; }
  }

  /** `repair_legacy_compatibility`: rewrite the file from the ring, or remove it when history is disabled. */
  method Repair(v: RawView, cap: nat, bytes: seq<Byte>, observedEnd: nat, ghost stream: seq<Byte>)
    returns (w: RawView, ok: bool)
    requires v.Tracks(cap, stream) && observedEnd == |stream| && bytes == Last(stream, cap)
    ensures w.Tracks(cap, stream) && v.Reports(w, ok)
    ensures ok ==> w.UpToDate(observedEnd) && w.file == if cap == 0 then None else Some(bytes)
  {
    var fails := Fails(v);
    if fails { return v.Failed(), false; }
    if cap == 0 {
      w, ok := Remove(v, observedEnd, stream);
    } else {
      w, ok := Rewrite(v, cap, bytes, observedEnd, stream);
    }
  }

  /** History is disabled: no file. The removal may fail, and so may the directory sync after it. */
  method Remove(v: RawView, observedEnd: nat, ghost stream: seq<Byte>) returns (w: RawView, ok: bool)
    requires v.Tracks(0, stream) && observedEnd == |stream|
    ensures w.Tracks(0, stream) && v.Reports(w, ok)
    ensures ok ==> w.UpToDate(observedEnd) && w.file.None?
  {
    w := v;
    if v.file.Some? {
      var fails := Fails(v);
      if fails { return w.Failed(), false; }
      w := v.(file := None);
      fails := Fails(v);
      if fails { return w.Failed(), false; }
    }
    return w.(end := observedEnd, len := 0, known := true), true;
  }

  /** The atomic write may fail before its rename or after it. */
  method Rewrite(v: RawView, cap: nat, bytes: seq<Byte>, observedEnd: nat, ghost stream: seq<Byte>)
    returns (w: RawView, ok: bool)
    requires v.Tracks(cap, stream) && observedEnd == |stream| && bytes == Last(stream, cap)
    ensures w.Tracks(cap, stream) && v.Reports(w, ok)
    ensures ok ==> w.UpToDate(observedEnd) && w.file == Some(bytes)
  {
    var fails := Fails(v);
    if fails {
      w := v.(known := false);
      if * { w := w.(file := Some(bytes)); }
      return w.Failed(), false;
    }
    PieceFacts(stream, cap);
    return RawView(Some(bytes), observedEnd, |bytes|, true, v.faults, v.steady), true;
  }

  /** Append the last `delta` bytes of the ring: the write may stop short, its sync may fail. */
  method Extend(v: RawView, cap: nat, bytes: seq<Byte>, observedEnd: nat, ghost stream: seq<Byte>)
    returns (w: RawView, ok: bool)
    requires v.Tracks(cap, stream) && observedEnd == |stream| && bytes == Last(stream, cap)
    requires v.known && v.file.Some? && observedEnd - v.end <= |bytes| && v.len + observedEnd - v.end <= 2 * cap
    ensures w.Tracks(cap, stream) && v.Reports(w, ok)
    ensures ok ==> w.UpToDate(observedEnd)
    ensures ok ==> w.Content() == v.Content() + Last(bytes, observedEnd - v.end)
  {
    var delta := observedEnd - v.end;
    var tail := bytes[|bytes| - delta..];
    var fails := Fails(v);
    if fails {
      var written :| 0 <= written <= |tail|;
      return v.(file := Some(v.file.value + tail[..written]), known := false).Failed(), false;
    }
    assert tail == Piece(stream, observedEnd, delta);
    PieceJoins(stream, v.end, v.len, delta);
    return RawView(Some(v.file.value + tail), observedEnd, v.len + delta, true, v.faults, v.steady), true;
  }

  /** `flush_legacy_compatibility`. */
  method Flush(v: RawView, cap: nat, bytes: seq<Byte>, observedEnd: nat, ghost stream: seq<Byte>)
    returns (w: RawView, ok: bool)
    requires v.Tracks(cap, stream) && observedEnd == |stream| && bytes == Last(stream, cap)
    ensures w.Tracks(cap, stream) && v.Reports(w, ok)
    ensures ok ==> w.UpToDate(observedEnd)
    ensures v.UpToDate(observedEnd) ==> ok && w == v
    ensures ok && v.Appendable(cap, bytes, observedEnd) ==>
              w.Content() == v.Content() + Last(bytes, observedEnd - v.end)
    ensures ok && !v.Appendable(cap, bytes, observedEnd) && !v.UpToDate(observedEnd) ==> w.Content() == bytes
  {
    var delta := observedEnd - v.end;
    if delta == 0 && v.known { return v, true; }
    var rewrite := cap == 0 || !v.known || delta > |bytes| || v.len + delta > 2 * cap;
    if !rewrite {
      var fails := Fails(v);
      if fails { return v.Failed(), false; }
      rewrite := v.file.None? || |v.file.value| != v.len;
    }
    if rewrite {
      w, ok := Repair(v, cap, bytes, observedEnd, stream);
    } else {
      w, ok := Extend(v, cap, bytes, observedEnd, stream);
    }
  }
}
