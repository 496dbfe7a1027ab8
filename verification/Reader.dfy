/**
 `NativeLogReader`: following a growing log line by line, and the pages cut out of
 its events. Decoding bytes and translating a JSON text into events are parameters.
 */
module Reader {
  import opened Basics
  import opened LineCut
  import opened Assembler

  /** An event before the reader stamps it. */
  datatype Draft = Draft(kind: string, body: string) | Truncated(bytes: nat) | Discarded(bytes: nat)
  {
    function Kind(): string {
      if Draft? then kind else "error"
    }
  }

  /** What the reader is opened with. */
  datatype Config = Config(maxLine: Option<nat>, decode: seq<Byte> -> string, translate: string -> seq<Draft>)

  datatype Event = Event(sequence: nat, draft: Draft)

  // ---- Batch reading: the simple definition ------------------------------------

  /** The assembler after some lines, and what they yielded. */
  datatype Read = Read(asm: Asm, drafts: seq<Draft>)

  /** One line without its newline: `process_line` and what precedes it. */
  function ReadLine(c: Config, a: Asm, raw: seq<Byte>): Read {
    var line := StripReturn(raw);
    if line == [] then Read(a, [])
    else if c.maxLine.Some? && |line| > c.maxLine.value then Read(a, [Truncated(|line|)])
    else
      var (after, fed) := Feed(a, c.decode(line));
      Read(after, DraftsOf(c, fed))
  }

  /** What one fed line yields. */
  function DraftsOf(c: Config, fed: Fed): seq<Draft> {
    (if fed.discarded.Some? then [Discarded(fed.discarded.value)] else [])
    + (if fed.text.Some? then c.translate(fed.text.value) else [])
  }

  /** How one line changes the assembler, and what it yields. */
  type LineStep = (Asm, seq<Byte>) -> Read

  function StepOf(c: Config): LineStep {
    (a, raw) => ReadLine(c, a, raw)
  }

  /** All lines in order. */
  function ReadLines(step: LineStep, a: Asm, lines: seq<seq<Byte>>): Read {
    if lines == [] then Read(a, [])
    else
      var before := ReadLines(step, a, lines[..|lines| - 1]);
      var last := step(before.asm, lines[|lines| - 1]);
      Read(last.asm, before.drafts + last.drafts)
  }

  /** `finish`: consecutive sequence numbers. */
  function Stamp(drafts: seq<Draft>, from: nat): seq<Event> {
    seq(|drafts|, k requires 0 <= k < |drafts| => Event(from + k, drafts[k]))
  }

  /** One read of the newline-terminated prefix of a whole file. */
  function Batch(step: LineStep, file: seq<Byte>): seq<Event> {
    Stamp(ReadLines(step, EMPTY, CutLines(file).lines).drafts, 0)
  }

  lemma StampJoins(first: seq<Draft>, rest: seq<Draft>, from: nat)
    ensures Stamp(first + rest, from) == Stamp(first, from) + Stamp(rest, from + |first|)
  {
  }

  lemma {:induction false} ReadInTwo(step: LineStep, a: Asm, x: seq<seq<Byte>>, y: seq<seq<Byte>>)
    ensures var first := ReadLines(step, a, x);
            var rest := ReadLines(step, first.asm, y);
            ReadLines(step, a, x + y) == Read(rest.asm, first.drafts + rest.drafts)
    decreases |y|
  {
    if y == [] {
      assert x + y == x;
      assert ReadLines(step, a, x).drafts + [] == ReadLines(step, a, x).drafts;
    } else {
      var init := y[..|y| - 1];
      ReadInTwo(step, a, x, init);
      assert (x + y)[..|x + y| - 1] == x + init;
    }
  }

  // ---- Incremental reading -------------------------------------------------------

  /** What the reader remembers between polls. */
  datatype Position = Position(asm: Asm, sequence: nat, offset: nat)

  const START := Position(EMPTY, 0, 0)

  /** The result of a read: where the reader stands and what it emitted. */
  datatype Progress = Progress(at: Position, events: seq<Event>)

  /** Where a read begins: from the start again if the file shrank. */
  function Resume(p: Position, file: seq<Byte>): (q: Position)
    ensures q.offset <= |file|
  {
    if |file| < p.offset then START else p
  }

  /** One poll that leaves an unterminated tail alone. */
  function Poll(step: LineStep, p: Position, file: seq<Byte>): (x: Progress)
    ensures x.at.offset <= |file|
  {
    var q := Resume(p, file);
    var cut := CutLines(file[q.offset..]);
    var read := ReadLines(step, q.asm, cut.lines);
    Progress(Position(read.asm, q.sequence + |read.drafts|, |file| - |cut.tail|), Stamp(read.drafts, q.sequence))
  }

  lemma PollResumes(step: LineStep, p: Position, file: seq<Byte>)
    ensures Poll(step, Resume(p, file), file) == Poll(step, p, file)
  {
  }

  /** One more line, which ends at `offset`. */
  function OneLine(step: LineStep, p: Position, raw: seq<Byte>, offset: nat): Progress {
    var read := step(p.asm, raw);
    Progress(Position(read.asm, p.sequence + |read.drafts|, offset), Stamp(read.drafts, p.sequence))
  }

  /** A one-shot read also takes the tail, as a last line. */
  function WithTail(step: LineStep, x: Progress, tail: seq<Byte>, end: nat): Progress {
    var y := OneLine(step, x.at, tail, end);
    Progress(y.at, x.events + y.events)
  }

  /** A whole read. */
  function ReadFile(step: LineStep, p: Position, file: seq<Byte>, consumeTail: bool): Progress {
    var x := Poll(step, p, file);
    var tail := file[x.at.offset..];
    if tail == [] || !consumeTail then x else WithTail(step, x, tail, |file|)
  }

  /** `read_until`: the bytes before the next newline, or all that are left. */
  method ReadUntil(file: seq<Byte>, from: nat) returns (line: seq<Byte>, terminated: bool)
    requires from <= |file|
    ensures Split(file, from, line, terminated)
  {
    var i := from;
    while i < |file| && file[i] != NEWLINE
      invariant from <= i <= |file| && NEWLINE !in file[from..i]
    {
      assert file[from..i + 1] == file[from..i] + [file[i]];
      i := i + 1;
    }
    line, terminated := file[from..i], i < |file|;
  }

  ghost predicate Split(file: seq<Byte>, from: nat, line: seq<Byte>, terminated: bool)
    requires from <= |file|
  {
    && NEWLINE !in line
    && if terminated then line + [NEWLINE] <= file[from..] else line == file[from..]
  }

  lemma ReadOneMore(step: LineStep, a: Asm, done: seq<seq<Byte>>, line: seq<Byte>)
    ensures var before := ReadLines(step, a, done);
            var last := step(before.asm, line);
            ReadLines(step, a, done + [line]) == Read(last.asm, before.drafts + last.drafts)
  {
    assert (done + [line])[..|done|] == done;
  }

  /** In the middle of a read that began at `q`: the lines `done` have been processed. */
  ghost predicate Reached(step: LineStep, q: Position, file: seq<Byte>, done: seq<seq<Byte>>, x: Progress)
    requires q.offset <= |file|
  {
    var read := ReadLines(step, q.asm, done);
    && x.at == Position(read.asm, q.sequence + |read.drafts|, x.at.offset)
    && x.events == Stamp(read.drafts, q.sequence)
    && x.at.offset <= |file|
    && var c := CutLines(file[x.at.offset..]);
       CutLines(file[q.offset..]) == Cut(done + c.lines, c.tail)
  }

  lemma LineTaken(step: LineStep, q: Position, file: seq<Byte>, done: seq<seq<Byte>>, line: seq<Byte>, x: Progress)
    requires q.offset <= |file| && Reached(step, q, file, done, x)
    requires Split(file, x.at.offset, line, true)
    ensures var next := x.at.offset + |line| + 1;
            var y := OneLine(step, x.at, line, next);
            next <= |file| && Reached(step, q, file, done + [line], Progress(y.at, x.events + y.events))
  {
    var rest := file[x.at.offset + |line| + 1..];
    assert file[x.at.offset..] == line + [NEWLINE] + rest;
    CutFirstLine(line, rest);
    assert done + ([line] + CutLines(rest).lines) == done + [line] + CutLines(rest).lines;
    ReadOneMore(step, q.asm, done, line);
    StampJoins(ReadLines(step, q.asm, done).drafts, step(x.at.asm, line).drafts, q.sequence);
  }

  lemma EndReached(step: LineStep, q: Position, file: seq<Byte>, done: seq<seq<Byte>>, line: seq<Byte>, x: Progress)
    requires q.offset <= |file| && Reached(step, q, file, done, x)
    requires Split(file, x.at.offset, line, false)
    ensures Poll(step, q, file) == x && line == file[x.at.offset..]
  {
    CutWithoutNewline(line);
    assert done + [] == done;
  }

  class NativeLogReader {
    const config: Config
    var asm: Asm
    var sequence: nat
    var offset: nat

    function State(): Position
      reads this
    {
      Position(asm, sequence, offset)
    }

    constructor (config: Config)
      ensures State() == START && this.config == config
    {
      this.config := config;
      asm, sequence, offset := EMPTY, 0, 0;
    }

    /** `process_line`: the line goes through the assembler and its events are numbered. */
    method ProcessLine(raw: seq<Byte>) returns (events: seq<Event>)
      modifies this`asm, this`sequence
      ensures Progress(State(), events) == OneLine(StepOf(config), old(State()), raw, old(offset))
    {
      var read := ReadLine(config, asm, raw);
      asm := read.asm;
      events := Stamp(read.drafts, sequence);
      sequence := sequence + |read.drafts|;
    }

    /** One terminated line. */
    method TakeLine(ghost file: seq<Byte>, line: seq<Byte>, events: seq<Event>, ghost q: Position,
                    ghost done: seq<seq<Byte>>)
      returns (all: seq<Event>)
      requires offset <= |file| && Split(file, offset, line, true) && q.offset <= |file|
      requires Reached(StepOf(config), q, file, done, Progress(State(), events))
      modifies this`asm, this`sequence, this`offset
      ensures offset == old(offset) + |line| + 1 <= |file|
      ensures Reached(StepOf(config), q, file, done + [line], Progress(State(), all))
    {
      ghost var before := Progress(State(), events);
      var stamped := ProcessLine(line);
      offset := offset + |line| + 1;
      all := events + stamped;
      LineTaken(StepOf(config), q, file, done, line, before);
    }

    /** The loop of `read_into`: every terminated line from here on, and the tail left over. */
    method ReadTerminated(file: seq<Byte>) returns (events: seq<Event>, tail: seq<Byte>)
      requires offset <= |file|
      modifies this`asm, this`sequence, this`offset
      ensures Progress(State(), events) == Poll(StepOf(config), old(State()), file)
      ensures offset <= |file| && tail == file[offset..]
    {
      ghost var step, q := StepOf(config), State();
      ghost var done: seq<seq<Byte>> := [];
      events := [];
      var line, terminated := ReadUntil(file, offset);
      while terminated
        invariant offset <= |file| && Split(file, offset, line, terminated)
        invariant Reached(step, q, file, done, Progress(State(), events))
        decreases |file| - offset
      {
        events := TakeLine(file, line, events, q, done);
        done := done + [line];
        line, terminated := ReadUntil(file, offset);
      }
      EndReached(step, q, file, done, line, Progress(State(), events));
      tail := line;
    }

    /** `reset`, when the file is shorter than what was already read. */
    method Rewind(file: seq<Byte>)
      modifies this`asm, this`sequence, this`offset
      ensures State() == Resume(old(State()), file)
    {
      if |file| < offset {
        asm, sequence, offset := EMPTY, 0, 0;
      }
    }

    method TakeTail(tail: seq<Byte>, end: nat, events: seq<Event>) returns (all: seq<Event>)
      modifies this`asm, this`sequence, this`offset
      ensures Progress(State(), all) == WithTail(StepOf(config), Progress(old(State()), events), tail, end)
    {
      var stamped := ProcessLine(tail);
      offset := end;
      all := events + stamped;
    }

    /** `read_into`. */
    method ReadInto(file: seq<Byte>, consumeTail: bool) returns (events: seq<Event>)
      modifies this`asm, this`sequence, this`offset
      ensures Progress(State(), events) == ReadFile(StepOf(config), old(State()), file, consumeTail)
    {
      Rewind(file);
      PollResumes(StepOf(config), old(State()), file);
      var tail;
      events, tail := ReadTerminated(file);
      if tail != [] && consumeTail {
        events := TakeTail(tail, |file|, events);
      }
    }
  }

  // ---- Incremental equals batch ------------------------------------------------------

  /** A log that only grows: each poll sees a file that continues the one before. */
  ghost predicate Growing(files: seq<seq<Byte>>) {
    forall i :: 0 < i < |files| ==> files[i - 1] <= files[i]
  }

  /** Any schedule of polls: the final position and everything emitted. */
  function PollAll(step: LineStep, files: seq<seq<Byte>>): Progress {
    if files == [] then Progress(START, [])
    else
      var before := PollAll(step, files[..|files| - 1]);
      var last := Poll(step, before.at, files[|files| - 1]);
      Progress(last.at, before.events + last.events)
  }

  /** Where a reader of `file` stands, however it got there. */
  ghost predicate CaughtUp(step: LineStep, p: Position, file: seq<Byte>) {
    var read := ReadLines(step, EMPTY, CutLines(file).lines);
    p == Position(read.asm, |read.drafts|, p.offset) && p.offset == Terminated(file)
  }

  /** A poll of a longer file emits exactly the events the shorter one lacked. */
  lemma PollCatchesUp(step: LineStep, p: Position, was: seq<Byte>, file: seq<Byte>)
    requires CaughtUp(step, p, was) && was <= file
    ensures CaughtUp(step, Poll(step, p, file).at, file)
    ensures Batch(step, file) == Batch(step, was) + Poll(step, p, file).events
  {
    var more := file[|was|..];
    TailIsSuffix(was);
    CutGrown(was, more);
    assert file == was + more && file[p.offset..] == CutLines(was).tail + more;
    var x, y := CutLines(was).lines, CutLines(file[p.offset..]).lines;
    ReadInTwo(step, EMPTY, x, y);
    StampJoins(ReadLines(step, EMPTY, x).drafts, ReadLines(step, p.asm, y).drafts, 0);
  }

  /**
   Incremental reading equals batch reading: however the log grows and whenever it
   is polled, the events emitted are those of one read of its terminated prefix,
   numbered 0, 1, 2, and so on.
   */
  lemma {:induction false} IncrementalEqualsBatch(step: LineStep, files: seq<seq<Byte>>)
    requires files != [] && Growing(files)
    ensures PollAll(step, files).events == Batch(step, files[|files| - 1])
    ensures CaughtUp(step, PollAll(step, files).at, files[|files| - 1])
    ensures forall k :: 0 <= k < |PollAll(step, files).events| ==> PollAll(step, files).events[k].sequence == k
    decreases |files|
  {
    var n := |files|;
    var init, last := files[..n - 1], files[n - 1];
    if n == 1 {
      assert init == [] && CaughtUp(step, START, []) && Batch(step, []) == [];
      PollCatchesUp(step, START, [], last);
    } else {
      IncrementalEqualsBatch(step, init);
      PollCatchesUp(step, PollAll(step, init).at, init[n - 2], last);
    }
  }

  // ---- One-shot reading ---------------------------------------------------------------

  /** The file as it would be if its last line were terminated. */
  function Closed(file: seq<Byte>): seq<Byte> {
    if file == [] || file[|file| - 1] == NEWLINE then file else file + [NEWLINE]
  }

  lemma ClosedCut(file: seq<Byte>)
    ensures var c := CutLines(file);
            CutLines(Closed(file)) == if c.tail == [] then c else Cut(c.lines + [c.tail], [])
    ensures CutLines(file).tail == [] <==> Closed(file) == file
  {
    if file != [] && file[|file| - 1] != NEWLINE {
      assert Closed(file)[..|file|] == file;
    }
  }

  /**
   A one-shot read of a reader that has read a prefix of the file emits exactly the
   events that the whole file holds beyond it, an unterminated last line included.
   */
  lemma OneShotReadsAll(step: LineStep, p: Position, was: seq<Byte>, file: seq<Byte>)
    requires CaughtUp(step, p, was) && was <= file
    ensures Batch(step, was) + ReadFile(step, p, file, true).events == Batch(step, Closed(file))
    ensures ReadFile(step, p, file, true).at.offset == |file|
  {
    var c := CutLines(file);
    PollCatchesUp(step, p, was, file);
    TailIsSuffix(file);
    ClosedCut(file);
    var x := Poll(step, p, file);
    assert file[x.at.offset..] == c.tail;
    if c.tail != [] {
      TailAdds(step, Batch(step, was), x, c.lines, c.tail, |file|);
    }
  }

  lemma TailAdds(step: LineStep, before: seq<Event>, x: Progress, lines: seq<seq<Byte>>, tail: seq<Byte>, end: nat)
    requires var read := ReadLines(step, EMPTY, lines);
             && before + x.events == Stamp(read.drafts, 0)
             && x.at.asm == read.asm && x.at.sequence == |read.drafts|
    ensures before + WithTail(step, x, tail, end).events == Stamp(ReadLines(step, EMPTY, lines + [tail]).drafts, 0)
  {
    var read := ReadLines(step, EMPTY, lines);
    ReadOneMore(step, EMPTY, lines, tail);
    StampJoins(read.drafts, step(read.asm, tail).drafts, 0);
  }

  /** A read that leaves the tail alone emits what the terminated lines hold beyond the prefix. */
  lemma FollowingReadsLines(step: LineStep, p: Position, was: seq<Byte>, file: seq<Byte>)
    requires CaughtUp(step, p, was) && was <= file
    ensures Batch(step, was) + ReadFile(step, p, file, false).events == Batch(step, file)
    ensures CaughtUp(step, ReadFile(step, p, file, false).at, file)
  {
    PollCatchesUp(step, p, was, file);
  }
}
