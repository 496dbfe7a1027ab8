/** The reader as a whole: JSON records, each over any number of lines, come out as their own events. */
module Transcript {
  import opened Text
  import opened LineCut
  import opened Assembler
  import opened Reader

  /** A JSON object or array, and the lines that its writer put it on. */
  datatype Record = Record(root: Node, lines: seq<seq<Byte>>)
  {
    function Text(): string {
      NodeText(root)
    }
  }

  /** A line the reader passes on, as the text it decodes to. */
  predicate Passes(c: Config, raw: seq<Byte>, text: string) {
    var line := StripReturn(raw);
    line != [] && (c.maxLine.Some? ==> |line| <= c.maxLine.value) && c.decode(line) == text
  }

  ghost predicate AllPass(c: Config, raws: seq<seq<Byte>>, texts: seq<string>) {
    |raws| == |texts| && forall i :: 0 <= i < |raws| ==> Passes(c, raws[i], texts[i])
  }

  /** The record lies on its lines: cut outside strings, no continuation being a record of its own. */
  ghost predicate LiesOn(c: Config, r: Record, texts: seq<string>) {
    && AllPass(c, r.lines, texts) && Pieces(texts, r.root)
    && forall i :: 1 <= i < |texts| ==> !WholeRecord(texts[i])
  }

  function AllDrafts(c: Config, produced: seq<Fed>): seq<Draft> {
    if produced == [] then [] else AllDrafts(c, produced[..|produced| - 1]) + DraftsOf(c, produced[|produced| - 1])
  }

  /** Reading lines that pass is feeding their texts. */
  lemma {:induction false} ReadingFeeds(c: Config, a: Asm, raws: seq<seq<Byte>>, texts: seq<string>)
    requires AllPass(c, raws, texts)
    ensures var (after, produced) := FeedAll(a, texts);
            ReadLines(StepOf(c), a, raws) == Read(after, AllDrafts(c, produced))
    decreases |raws|
  {
    if raws != [] {
      var n := |raws| - 1;
      ReadingFeeds(c, a, raws[..n], texts[..n]);
      assert Passes(c, raws[n], texts[n]);
      var (before, produced) := FeedAll(a, texts[..n]);
      var (after, fed) := Feed(before, texts[n]);
      assert (produced + [fed])[..|produced|] == produced;
      assert StepOf(c)(before, raws[n]) == Read(after, DraftsOf(c, fed));
    }
  }

  lemma {:induction false} SilenceYieldsNothing(c: Config, produced: seq<Fed>)
    requires Silent(produced)
    ensures AllDrafts(c, produced) == []
    decreases |produced|
  {
    if produced != [] {
      SilenceYieldsNothing(c, produced[..|produced| - 1]);
    }
  }

  /** One record, from an empty assembler: exactly its events, and the assembler is empty again. */
  lemma RecordReads(c: Config, r: Record, texts: seq<string>)
    requires LiesOn(c, r, texts)
    ensures ReadLines(StepOf(c), EMPTY, r.lines) == Read(EMPTY, c.translate(r.Text()))
  {
    ReadingFeeds(c, EMPTY, r.lines, texts);
    ReassemblyUndoesSplitting(texts, r.root);
    var (after, produced) := FeedAll(EMPTY, texts);
    SilenceYieldsNothing(c, produced[..|produced| - 1]);
    assert [] + c.translate(r.Text()) == c.translate(r.Text());
  }

  /** A whole record on one line is read in any state: what was buffered is reported first, as an error of its size. */
  lemma WholeRecordReads(c: Config, a: Asm, raw: seq<Byte>, text: string)
    requires a.Valid() && Passes(c, raw, text) && WholeRecord(text)
    ensures StepOf(c)(a, raw)
            == Read(EMPTY, (if a.buffer == "" then [] else [Discarded(ByteLen(a.buffer))]) + c.translate(Trim(text)))
    ensures forall n :: Discarded(n).Kind() == Truncated(n).Kind() == "error"
    ensures forall kind, body :: Draft(kind, body).Kind() == kind
  {
    WholeRecordRestarts(a, text);
  }

  /** What a log is made of: records, empty or blank lines, and lines that are too long to read. */
  datatype Item = Whole(record: Record) | Blank(raw: seq<Byte>) | TooLong(raw: seq<Byte>)
  {
    function Lines(): seq<seq<Byte>> {
      if Whole? then record.lines else [raw]
    }
  }

  function LogOf(items: seq<Item>): seq<seq<Byte>> {
    if items == [] then [] else LogOf(items[..|items| - 1]) + items[|items| - 1].Lines()
  }

  /** The line without the carriage return that may end it. */
  function Bare(raw: seq<Byte>): seq<Byte> {
    if raw != [] && raw[|raw| - 1] == '\r' then raw[..|raw| - 1] else raw
  }

  /** A record's own events, nothing for a blank line, and the length of a line that is too long. */
  function EventsIn(c: Config, item: Item): seq<Draft> {
    match item
    case Whole(record) => c.translate(record.Text())
    case Blank(_) => []
    case TooLong(raw) => [Truncated(|Bare(raw)|)]
  }

  /** The events of the items, one after the other. */
  function EventsOf(c: Config, items: seq<Item>): seq<Draft> {
    if items == [] then [] else EventsOf(c, items[..|items| - 1]) + EventsIn(c, items[|items| - 1])
  }

  ghost predicate WellWritten(c: Config, items: seq<Item>) {
    forall i :: 0 <= i < |items| ==> IsWritten(c, items[i])
  }

  ghost predicate IsWritten(c: Config, item: Item) {
    match item
    case Whole(record) => exists texts :: LiesOn(c, record, texts)
    case Blank(raw) => Bare(raw) == [] || exists text :: Passes(c, raw, text) && Trim(text) == ""
    case TooLong(raw) => c.maxLine.Some? && |Bare(raw)| > c.maxLine.value && Bare(raw) != []
  }

  lemma ItemReads(c: Config, item: Item)
    requires IsWritten(c, item)
    ensures ReadLines(StepOf(c), EMPTY, item.Lines()) == Read(EMPTY, EventsIn(c, item))
  {
    if item.Whole? {
      var texts :| LiesOn(c, item.record, texts);
      RecordReads(c, item.record, texts);
    } else {
      assert [item.raw][..0] == [];
      assert ReadLines(StepOf(c), EMPTY, []) == Read(EMPTY, []);
      assert StepOf(c)(EMPTY, item.raw) == Read(EMPTY, EventsIn(c, item));
      assert [] + EventsIn(c, item) == EventsIn(c, item);
    }
  }

  lemma {:induction false} LogReads(c: Config, items: seq<Item>)
    requires WellWritten(c, items)
    ensures ReadLines(StepOf(c), EMPTY, LogOf(items)) == Read(EMPTY, EventsOf(c, items))
    decreases |items|
  {
    if items != [] {
      var init, last := items[..|items| - 1], items[|items| - 1];
      LogReads(c, init);
      assert IsWritten(c, last);
      ItemReads(c, last);
      ReadInTwo(StepOf(c), EMPTY, LogOf(init), last.Lines());
    }
  }

  /**
   However the log grew and whenever it was polled, its records have come out once
   each, in order, whole, and as the events they translate to, with one event for each
   line that is too long and none for a blank one.
   */
  lemma EveryRecordOnce(c: Config, files: seq<seq<Byte>>, items: seq<Item>)
    requires files != [] && Growing(files) && WellWritten(c, items)
    requires CutLines(files[|files| - 1]).lines == LogOf(items)
    ensures PollAll(StepOf(c), files).events == Stamp(EventsOf(c, items), 0)
  {
    IncrementalEqualsBatch(StepOf(c), files);
    LogReads(c, items);
  }

  /** A one-shot read gives the same, with the last line terminated or not. */
  lemma OneShotReadsEveryRecord(c: Config, file: seq<Byte>, items: seq<Item>)
    requires WellWritten(c, items) && CutLines(Closed(file)).lines == LogOf(items)
    ensures ReadFile(StepOf(c), START, file, true).events == Stamp(EventsOf(c, items), 0)
  {
    assert CaughtUp(StepOf(c), START, []) && Batch(StepOf(c), []) == [];
    OneShotReadsAll(StepOf(c), START, [], file);
    LogReads(c, items);
  }
}
