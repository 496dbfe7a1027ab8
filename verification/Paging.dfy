/** Pages cut out of a transcript, and the live tail that follows one. */
module Paging {
  import opened Basics
  import opened LineCut
  import opened Reader

  datatype Query = Query(last: Option<nat>, kind: Option<string>, after: Option<nat>, before: Option<nat>)
  {
    predicate Accepts(e: Event) {
      && (kind.Some? ==> e.draft.Kind() == kind.value)
      && (after.Some? ==> e.sequence > after.value)
      && (before.Some? ==> e.sequence < before.value)
    }
  }

  /** The simple query: filter the whole list. */
  function Select(q: Query, events: seq<Event>): seq<Event> {
    if events == [] then []
    else
      var e := events[|events| - 1];
      Select(q, events[..|events| - 1]) + if q.Accepts(e) then [e] else []
  }

  /** Filter, then keep the last `last`. */
  function Page(q: Query, events: seq<Event>): seq<Event> {
    var all := Select(q, events);
    if q.last.Some? then Last(all, q.last.value) else all
  }

  lemma {:induction false} SelectJoins(q: Query, x: seq<Event>, y: seq<Event>)
    ensures Select(q, x + y) == Select(q, x) + Select(q, y)
    decreases |y|
  {
    if y == [] {
      assert x + y == x;
    } else {
      SelectJoins(q, x, y[..|y| - 1]);
      assert (x + y)[..|x + y| - 1] == x + y[..|y| - 1];
    }
  }

  ghost predicate Ascending(events: seq<Event>) {
    forall i, j :: 0 <= i < j < |events| ==> events[i].sequence < events[j].sequence
  }

  /** The simple query really is the accepted events, each once and in order. */
  lemma {:induction false} SelectKeepsOrder(q: Query, events: seq<Event>)
    requires Ascending(events)
    ensures Ascending(Select(q, events))
    ensures forall e :: e in Select(q, events) <==> e in events && q.Accepts(e)
    decreases |events|
  {
    if events != [] {
      var init, e := events[..|events| - 1], events[|events| - 1];
      assert events == init + [e];
      SelectKeepsOrder(q, init);
      var r := Select(q, init);
      forall i | 0 <= i < |r| ensures r[i].sequence < e.sequence {
        assert r[i] in r && r[i] in init;
      }
      var all := Select(q, events);
      forall i, j | 0 <= i < j < |all| ensures all[i].sequence < all[j].sequence {
        assert all[i] == r[i] && all[j] == if j < |r| then r[j] else e;
      }
    }
  }

  /** Two queries that agree on the given events select the same. */
  lemma {:induction false} SelectAgrees(q: Query, r: Query, events: seq<Event>)
    requires forall e :: e in events ==> (q.Accepts(e) <==> r.Accepts(e))
    ensures Select(q, events) == Select(r, events)
    decreases |events|
  {
    if events != [] {
      SelectAgrees(q, r, events[..|events| - 1]);
    }
  }

  /** `admit`: into the page if accepted, pushing out the oldest when it grows too long. */
  method Admit(page: seq<Event>, q: Query, e: Event, ghost past: seq<Event>) returns (r: seq<Event>)
    requires page == Page(q, past)
    ensures r == Page(q, past + [e])
  {
    assert (past + [e])[..|past|] == past;
    r := page;
    if q.Accepts(e) {
      r := page + [e];
      if q.last.Some? && |r| > q.last.value {
        r := r[1..];
      }
    }
  }

  /** `paginate`: streaming admission equals filtering the full list and taking its last N. */
  method Paginate(events: seq<Event>, q: Query) returns (page: seq<Event>)
    ensures page == Page(q, events) && (q.last.Some? ==> |page| <= q.last.value)
    ensures forall e :: e in page ==>
              && e in events && (q.kind.None? || e.draft.Kind() == q.kind.value)
              && (q.after.None? || q.after.value < e.sequence) && (q.before.None? || e.sequence < q.before.value)
    ensures forall e :: e in events && e !in page ==>
              || (q.last.Some? && |page| == q.last.value)
              || (q.kind.Some? && e.draft.Kind() != q.kind.value)
              || (q.after.Some? && e.sequence <= q.after.value) || (q.before.Some? && q.before.value <= e.sequence)
  {
    page := [];
    for i := 0 to |events|
      invariant page == Page(q, events[..i])
    {
      page := Admit(page, q, events[i], events[..i]);
      assert events[..i + 1] == events[..i] + [events[i]];
    }
    assert events[..|events|] == events;
    SelectHolds(q, events);
    LastHolds(Select(q, events), page);
  }

  lemma {:induction false} SelectHolds(q: Query, events: seq<Event>)
    ensures forall e :: e in Select(q, events) <==> e in events && q.Accepts(e)
    decreases |events|
  {
    if events != [] {
      SelectHolds(q, events[..|events| - 1]);
      assert events == events[..|events| - 1] + [events[|events| - 1]];
    }
  }

  lemma LastHolds(all: seq<Event>, page: seq<Event>)
    requires page == Last(all, |page|)
    ensures forall e :: e in page ==> e in all
  {
    forall i | 0 <= i < |page| ensures page[i] in all {
      LastAt(all, |page|, i);
    }
  }

  lemma FreshReads(step: LineStep, file: seq<Byte>)
    ensures ReadFile(step, START, file, true).events == Batch(step, Closed(file))
    ensures ReadFile(step, START, file, false).events == Batch(step, file)
  {
    assert CaughtUp(step, START, []) && Batch(step, []) == [];
    OneShotReadsAll(step, START, [], file);
    FollowingReadsLines(step, START, [], file);
  }

  /** `snapshot_page`. */
  method SnapshotPage(reader: NativeLogReader, file: seq<Byte>, q: Query, follow: bool) returns (page: seq<Event>)
    modifies reader
    ensures var x := ReadFile(StepOf(reader.config), old(reader.State()), file, !follow);
            reader.State() == x.at && page == Page(q, x.events)
    ensures old(reader.State()) == START ==>
              page == Page(q, Batch(StepOf(reader.config), if follow then file else Closed(file)))
  {
    if reader.State() == START { FreshReads(StepOf(reader.config), file); }
    var events := reader.ReadInto(file, !follow);
    page := Paginate(events, q);
  }

  /** The query of the follow loop: no size limit and no upper cursor. */
  function Tail(q: Query, after: Option<nat>): Query {
    Query(None, q.kind, after, None)
  }

  /** The moving cursor excludes nothing at or beyond `next` that the caller's would not. */
  predicate CursorAgrees(q: Query, after: Option<nat>, next: nat) {
    after == q.after
    || (after.Some? && after.value < next && (q.after.Some? ==> q.after.value < after.value))
  }

  /** The cursor after emitting a page. */
  function Advance(after: Option<nat>, page: seq<Event>): Option<nat> {
    if page == [] then after else Some(page[|page| - 1].sequence)
  }

  /** Events numbered from `from`. */
  ghost predicate Numbered(events: seq<Event>, from: nat) {
    forall k :: 0 <= k < |events| ==> events[k].sequence == from + k
  }

  lemma FollowSelects(q: Query, after: Option<nat>, events: seq<Event>, from: nat)
    requires CursorAgrees(q, after, from) && Numbered(events, from)
    ensures Select(Tail(q, after), events) == Select(Tail(q, q.after), events)
    ensures CursorAgrees(q, Advance(after, Select(Tail(q, after), events)), from + |events|)
  {
    SelectAgrees(Tail(q, after), Tail(q, q.after), events);
    CursorAdvances(q, after, Select(Tail(q, q.after), events), events, from);
  }

  lemma CursorAdvances(q: Query, after: Option<nat>, page: seq<Event>, events: seq<Event>, from: nat)
    requires CursorAgrees(q, after, from) && Numbered(events, from) && page == Select(Tail(q, q.after), events)
    ensures CursorAgrees(q, Advance(after, page), from + |events|)
  {
    SelectKeepsOrder(Tail(q, q.after), events);
    if page != [] {
      var last := page[|page| - 1];
      assert last in page;
      assert last in events && Tail(q, q.after).Accepts(last);
    }
  }

  /** The first page leaves a cursor that the live tail can start from. */
  lemma FirstPageCursor(q: Query, events: seq<Event>)
    requires Numbered(events, 0)
    ensures CursorAgrees(q, Advance(q.after, Page(q, events)), |events|)
  {
    SelectKeepsOrder(q, events);
    var page := Page(q, events);
    if page != [] {
      assert page[|page| - 1] in Select(q, events);
    }
  }

  /**
   `run_transcript` with `follow`, over any growth of the log: the first page, then
   every later event of the requested kind past the cursor, once and in order.
   */
  method Follow(config: Config, files: seq<seq<Byte>>, q: Query) returns (page: seq<Event>, live: seq<Event>)
    requires files != [] && Growing(files)
    ensures var step := StepOf(config);
            var first := Batch(step, files[0]);
            var all := Batch(step, files[|files| - 1]);
            && page == Page(q, first)
            && first <= all
            && live == Select(Query(None, q.kind, q.after, None), all[|first|..])
  {
    ghost var step := StepOf(config);
    var reader := new NativeLogReader(config);
    page := SnapshotPage(reader, files[0], q, true);
    FirstRead(step, files[0]);
    ghost var first := Batch(step, files[0]);
    var after := Advance(q.after, page);
    FirstPageCursor(q, first);
    live := [];
    assert first[|first|..] == [];
    for i := 1 to |files|
      invariant reader.config == config && CaughtUp(step, reader.State(), files[i - 1])
      invariant Following(step, q, files[0], files[i - 1], after, live)
    {
      ghost var p := reader.State();
      var more := reader.ReadInto(files[i], false);
      PollCatchesUp(step, p, files[i - 1], files[i]);
      var shown := Paginate(more, Tail(q, after));
      FollowingGrows(step, q, files[0], files[i - 1], files[i], after, live, more);
      live := live + shown;
      after := Advance(after, shown);
    }
  }

  lemma FirstRead(step: LineStep, file: seq<Byte>)
    ensures Poll(step, START, file).events == Batch(step, file)
    ensures CaughtUp(step, Poll(step, START, file).at, file)
    ensures Numbered(Batch(step, file), 0)
  {
    assert CaughtUp(step, START, []) && Batch(step, []) == [];
    PollCatchesUp(step, START, [], file);
  }

  ghost predicate Following(step: LineStep, q: Query, start: seq<Byte>, file: seq<Byte>, after: Option<nat>,
                            live: seq<Event>) {
    var first, all := Batch(step, start), Batch(step, file);
    && first <= all
    && CursorAgrees(q, after, |all|)
    && live == Select(Tail(q, q.after), all[|first|..])
  }

  lemma FollowingGrows(step: LineStep, q: Query, start: seq<Byte>, was: seq<Byte>, file: seq<Byte>,
                       after: Option<nat>, live: seq<Event>, more: seq<Event>)
    requires Following(step, q, start, was, after, live)
    requires Batch(step, file) == Batch(step, was) + more
    ensures var shown := Page(Tail(q, after), more);
            Following(step, q, start, file, Advance(after, shown), live + shown)
  {
    LiveGrows(q, Batch(step, start), Batch(step, was), more, after, live, Batch(step, file));
  }

  lemma LiveGrows(q: Query, first: seq<Event>, before: seq<Event>, more: seq<Event>, after: Option<nat>,
                  live: seq<Event>, all: seq<Event>)
    requires first <= before && CursorAgrees(q, after, |before|) && all == before + more && Numbered(all, 0)
    requires live == Select(Tail(q, q.after), before[|first|..])
    ensures var shown := Page(Tail(q, after), more);
            && CursorAgrees(q, Advance(after, shown), |all|)
            && live + shown == Select(Tail(q, q.after), all[|first|..])
  {
    assert forall k :: 0 <= k < |more| ==> more[k] == all[|before| + k];
    FollowSelects(q, after, more, |before|);
    assert all[|first|..] == before[|first|..] + more;
    SelectJoins(Tail(q, q.after), before[|first|..], more);
  }

  /** A log that shrank is read again from the start, numbered from 0 again. */
  lemma ShrunkLogRestarts(step: LineStep, p: Position, file: seq<Byte>)
    requires |file| < p.offset
    ensures Poll(step, p, file).events == Batch(step, file)
  {
    FirstRead(step, file);
  }
}
