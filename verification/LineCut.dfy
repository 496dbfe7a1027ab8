/** Cutting a log or a text into complete lines and an unterminated tail. */
module LineCut {

  /** Bytes are written as the characters they stand for. */
  type Byte = char

  const NEWLINE: Byte := '\n'

  /** A carriage return before the newline belongs to the line ending. */
  function StripReturn(line: seq<Byte>): seq<Byte> {
    if line != [] && line[|line| - 1] == '\r' then line[..|line| - 1] else line
  }

  /** The complete lines, without their newlines, and what follows the last newline. */
  datatype Cut = Cut(lines: seq<seq<Byte>>, tail: seq<Byte>)

  function CutFrom(c: Cut, bytes: seq<Byte>): (r: Cut)
    ensures |r.tail| <= |c.tail| + |bytes|
    decreases |bytes|
  {
    if bytes == [] then c
    else
      var before := CutFrom(c, bytes[..|bytes| - 1]);
      var b := bytes[|bytes| - 1];
      if b == NEWLINE then Cut(before.lines + [before.tail], []) else Cut(before.lines, before.tail + [b])
  }

  function CutLines(bytes: seq<Byte>): Cut {
    CutFrom(Cut([], []), bytes)
  }

  /** The length of the newline-terminated prefix. */
  function Terminated(bytes: seq<Byte>): nat {
    |bytes| - |CutLines(bytes).tail|
  }

  lemma {:induction false} CutInTwo(c: Cut, a: seq<Byte>, b: seq<Byte>)
    ensures CutFrom(c, a + b) == CutFrom(CutFrom(c, a), b)
    decreases |b|
  {
    if b == [] {
      assert a + b == a;
    } else {
      CutInTwo(c, a, b[..|b| - 1]);
      assert (a + b)[..|a + b| - 1] == a + b[..|b| - 1];
    }
  }

  /** Lines already cut stay as they are. */
  lemma {:induction false} CutKeepsLines(lines: seq<seq<Byte>>, tail: seq<Byte>, bytes: seq<Byte>)
    ensures var c := CutFrom(Cut([], tail), bytes);
            CutFrom(Cut(lines, tail), bytes) == Cut(lines + c.lines, c.tail)
    decreases |bytes|
  {
    if bytes == [] {
      assert lines + [] == lines;
    } else {
      var init := bytes[..|bytes| - 1];
      CutKeepsLines(lines, tail, init);
      var c := CutFrom(Cut([], tail), init);
      assert lines + (c.lines + [c.tail]) == lines + c.lines + [c.tail];
    }
  }

  lemma {:induction false} CutWithoutNewline(bytes: seq<Byte>)
    requires NEWLINE !in bytes
    ensures CutLines(bytes) == Cut([], bytes)
    decreases |bytes|
  {
    if bytes != [] {
      CutWithoutNewline(bytes[..|bytes| - 1]);
      assert bytes[..|bytes| - 1] + [bytes[|bytes| - 1]] == bytes;
    }
  }

  /** The tail is the end of the bytes, and holds no newline. */
  lemma {:induction false} TailIsSuffix(bytes: seq<Byte>)
    ensures CutLines(bytes).tail == bytes[Terminated(bytes)..]
    ensures NEWLINE !in CutLines(bytes).tail
    decreases |bytes|
  {
    if bytes != [] {
      var init := bytes[..|bytes| - 1];
      TailIsSuffix(init);
      assert bytes == init + [bytes[|bytes| - 1]];
    }
  }

  /** The first complete line, then the rest: what a reader from the front sees. */
  lemma CutFirstLine(line: seq<Byte>, rest: seq<Byte>)
    requires NEWLINE !in line
    ensures var c := CutLines(rest);
            CutLines(line + [NEWLINE] + rest) == Cut([line] + c.lines, c.tail)
  {
    var empty := Cut([], []);
    CutWithoutNewline(line);
    CutInTwo(empty, line + [NEWLINE], rest);
    assert (line + [NEWLINE])[..|line + [NEWLINE]| - 1] == line;
    assert CutFrom(empty, line + [NEWLINE]) == Cut([line], []);
    CutKeepsLines([line], [], rest);
  }

  /** A log that grew: its lines are the old ones, then those of the old tail and what came. */
  lemma CutGrown(was: seq<Byte>, more: seq<Byte>)
    ensures var before := CutLines(was);
            var c := CutLines(before.tail + more);
            CutLines(was + more) == Cut(before.lines + c.lines, c.tail)
  {
    var empty, before := Cut([], []), CutLines(was);
    TailIsSuffix(was);
    CutWithoutNewline(before.tail);
    CutInTwo(empty, was, more);
    CutInTwo(empty, before.tail, more);
    CutKeepsLines(before.lines, before.tail, more);
  }
}
