/** Text as lines: the standard library's `lines`, joining, and trimming across lines. */
module RcLines {
  import opened Text
  import opened LineCut

  function Strip(lines: seq<string>): (r: seq<string>)
    ensures |r| == |lines|
    ensures forall i :: 0 <= i < |lines| ==> r[i] == StripReturn(lines[i])
  {
    seq(|lines|, i requires 0 <= i < |lines| => StripReturn(lines[i]))
  }

  /** `str::lines`. */
  function LinesOf(text: string): seq<string> {
    var c := CutLines(text);
    Strip(c.lines) + if c.tail == "" then [] else [c.tail]
  }

  /** The same lines with their carriage returns. */
  function RawLines(text: string): seq<string> {
    var c := CutLines(text);
    c.lines + if c.tail == "" then [] else [c.tail]
  }

  /** `join_lines`: every line ends with a newline. */
  function JoinLines(lines: seq<string>): string {
    if lines == [] then "" else JoinLines(lines[..|lines| - 1]) + lines[|lines| - 1] + "\n"
  }

  /** Lines as they come out of `lines`: no newline in any. */
  predicate NoNewlines(lines: seq<string>) {
    forall i :: 0 <= i < |lines| ==> '\n' !in lines[i]
  }

  /** No carriage return either. */
  predicate NoReturns(lines: seq<string>) {
    forall i :: 0 <= i < |lines| ==> '\r' !in lines[i]
  }

  lemma {:induction false} CutOfJoined(lines: seq<string>)
    requires NoNewlines(lines)
    ensures CutLines(JoinLines(lines)) == Cut(lines, "")
    decreases |lines|
  {
    if lines != [] {
      var init, last := lines[..|lines| - 1], lines[|lines| - 1];
      CutOfJoined(init);
      var empty: Cut := Cut([], []);
      var before := JoinLines(init);
      CutInTwo(empty, before, last + "\n");
      assert before + (last + "\n") == JoinLines(lines);
      CutKeepsLines(init, [], last + "\n");
      CutFirstLine(last, "");
      assert last + [NEWLINE] + "" == last + "\n";
      assert init + [last] == lines;
    }
  }

  /** Reading back joined lines gives them, without trailing carriage returns. */
  lemma LinesOfJoined(lines: seq<string>)
    requires NoNewlines(lines)
    ensures LinesOf(JoinLines(lines)) == Strip(lines)
    ensures NoReturns(lines) ==> LinesOf(JoinLines(lines)) == lines
  {
    CutOfJoined(lines);
    assert Strip(lines) + [] == Strip(lines);
    if NoReturns(lines) {
      assert Strip(lines) == lines;
    }
  }

  lemma RawLinesOfJoined(lines: seq<string>)
    requires NoNewlines(lines)
    ensures RawLines(JoinLines(lines)) == lines
  {
    CutOfJoined(lines);
    assert lines + [] == lines;
  }

  /** The two readings have the same lines, up to a carriage return. */
  lemma RawAndStripped(text: string)
    ensures |LinesOf(text)| == |RawLines(text)|
    ensures forall i :: 0 <= i < |RawLines(text)| ==>
              LinesOf(text)[i]
              == if i < |CutLines(text).lines| then StripReturn(RawLines(text)[i]) else RawLines(text)[i]
  {
  }

  lemma {:induction false} CutHasNoNewlines(text: string)
    ensures NoNewlines(CutLines(text).lines) && '\n' !in CutLines(text).tail
    ensures '\r' !in text ==> NoReturns(CutLines(text).lines) && '\r' !in CutLines(text).tail
    decreases |text|
  {
    if text != "" {
      CutHasNoNewlines(text[..|text| - 1]);
    }
  }

  lemma LinesHaveNoNewlines(text: string)
    ensures NoNewlines(LinesOf(text))
    ensures '\r' !in text ==> NoReturns(LinesOf(text))
  {
    CutHasNoNewlines(text);
    var c := CutLines(text);
    forall i | 0 <= i < |c.lines| ensures '\n' !in StripReturn(c.lines[i]) {
    }
  }

  // ---- When reading and joining gives the text back --------------------------------------

  predicate EndsInReturn(line: string) {
    line != "" && line[|line| - 1] == '\r'
  }

  /** A carriage return and a newline in a row. */
  predicate HasCrLf(text: string) {
    exists i :: 0 < i < |text| && text[i - 1] == '\r' && text[i] == '\n'
  }

  predicate SomeReturn(lines: seq<string>) {
    exists k :: 0 <= k < |lines| && EndsInReturn(lines[k])
  }

  lemma {:induction false} JoinOfCut(text: string)
    ensures JoinLines(CutLines(text).lines) + CutLines(text).tail == text
    decreases |text|
  {
    if text != "" {
      var init, last := text[..|text| - 1], text[|text| - 1];
      JoinOfCut(init);
      assert text == init + [last];
      var before := CutLines(init);
      assert (before.lines + [before.tail])[..|before.lines|] == before.lines;
      assert last == '\n' ==> JoinLines(before.lines + [before.tail]) == JoinLines(before.lines) + before.tail + "\n";
    }
  }

  lemma TailEnd(text: string)
    ensures EndsInReturn(CutLines(text).tail) <==> EndsInReturn(text)
  {
    if text != "" && text[|text| - 1] != '\n' {
      var tail := CutLines(text).tail;
      assert tail[|tail| - 1] == text[|text| - 1];
    }
  }

  lemma {:induction false} CrLfEndsLines(text: string)
    ensures HasCrLf(text) <==> SomeReturn(CutLines(text).lines)
    decreases |text|
  {
    if text != "" {
      var init, last := text[..|text| - 1], text[|text| - 1];
      CrLfEndsLines(init);
      TailEnd(init);
      CrLfGrows(init, last);
      if last == '\n' {
        SomeReturnGrows(CutLines(init).lines, CutLines(init).tail);
      }
      assert text == init + [last];
    }
  }

  lemma CrLfGrows(init: string, c: char)
    ensures HasCrLf(init + [c]) <==> HasCrLf(init) || (c == '\n' && EndsInReturn(init))
  {
    var text := init + [c];
    if HasCrLf(init) {
      var i :| 0 < i < |init| && init[i - 1] == '\r' && init[i] == '\n';
      assert text[i - 1] == '\r' && text[i] == '\n';
    }
    if c == '\n' && EndsInReturn(init) {
      var n := |init|;
      assert text[n - 1] == '\r' && text[n] == '\n';
    }
  }

  lemma SomeReturnGrows(lines: seq<string>, line: string)
    ensures SomeReturn(lines + [line]) <==> SomeReturn(lines) || EndsInReturn(line)
  {
    var all := lines + [line];
    if SomeReturn(lines) {
      var k :| 0 <= k < |lines| && EndsInReturn(lines[k]);
      assert all[k] == lines[k];
    }
    if EndsInReturn(line) {
      assert all[|lines|] == line;
    }
  }

  lemma StripSame(lines: seq<string>)
    requires !SomeReturn(lines)
    ensures Strip(lines) == lines
  {
    forall k | 0 <= k < |lines| ensures StripReturn(lines[k]) == lines[k] {
      assert !EndsInReturn(lines[k]);
    }
  }

  lemma {:induction false} StripShortens(lines: seq<string>)
    ensures |JoinLines(Strip(lines))| <= |JoinLines(lines)|
    ensures SomeReturn(lines) ==> |JoinLines(Strip(lines))| < |JoinLines(lines)|
    decreases |lines|
  {
    if lines != [] {
      var init, last := lines[..|lines| - 1], lines[|lines| - 1];
      StripShortens(init);
      StripStep(lines, init, last);
    }
  }

  lemma StripStep(all: seq<string>, lines: seq<string>, line: string)
    requires all == lines + [line]
    ensures |JoinLines(all)| == |JoinLines(lines)| + |line| + 1
    ensures |JoinLines(Strip(all))| == |JoinLines(Strip(lines))| + |StripReturn(line)| + 1
    ensures SomeReturn(all) <==> SomeReturn(lines) || EndsInReturn(line)
  {
    assert Strip(all) == Strip(lines) + [StripReturn(line)];
    JoinGrows(lines, line);
    JoinGrows(Strip(lines), StripReturn(line));
    SomeReturnGrows(lines, line);
  }

  lemma JoinGrows(lines: seq<string>, line: string)
    ensures JoinLines(lines + [line]) == JoinLines(lines) + line + "\n"
  {
    assert (lines + [line])[..|lines|] == lines;
  }

  /** Reading a text into lines and joining them changes it exactly when it has a CR LF ending. */
  lemma JoinOfLines(text: string)
    ensures JoinLines(LinesOf(text)) == text + (if CutLines(text).tail == "" then "" else "\n") <==> !HasCrLf(text)
  {
    var c := CutLines(text);
    JoinOfCut(text);
    CrLfEndsLines(text);
    StripShortens(c.lines);
    LinesJoined(Strip(c.lines), c.tail);
    if !HasCrLf(text) {
      StripSame(c.lines);
    }
  }

  lemma LinesJoined(lines: seq<string>, tail: string)
    ensures JoinLines(lines + if tail == "" then [] else [tail])
            == JoinLines(lines) + (tail + if tail == "" then "" else "\n")
  {
    if tail == "" {
      assert lines + [] == lines;
    } else {
      JoinGrows(lines, tail);
    }
  }

  // ---- Trimming ----------------------------------------------------------------------

  predicate Blank(line: string) {
    Trim(line) == ""
  }

  predicate AllSpace(s: string) {
    forall i :: 0 <= i < |s| ==> IsSpace(s[i])
  }

  lemma {:induction false} TrimStartOfSpace(s: string)
    ensures TrimStart(s) == "" <==> AllSpace(s)
    decreases |s|
  {
    if s != "" {
      TrimStartOfSpace(s[1..]);
      assert s == [s[0]] + s[1..];
    }
  }

  lemma {:induction false} TrimEndOfSpace(s: string)
    ensures TrimEnd(s) == "" <==> AllSpace(s)
    ensures TrimEnd(s) != "" ==> !IsSpace(TrimEnd(s)[|TrimEnd(s)| - 1])
    ensures TrimEnd(s) <= s
    decreases |s|
  {
    if s != "" {
      TrimEndOfSpace(s[..|s| - 1]);
      assert s == s[..|s| - 1] + [s[|s| - 1]];
    }
  }

  lemma {:induction false} TrimStartIsSuffix(s: string)
    ensures |TrimStart(s)| <= |s| && TrimStart(s) == s[|s| - |TrimStart(s)|..]
    ensures TrimStart(s) != "" ==> !IsSpace(TrimStart(s)[0])
    decreases |s|
  {
    if s != "" && IsSpace(s[0]) {
      TrimStartIsSuffix(s[1..]);
    }
  }

  lemma BlankIsSpace(line: string)
    ensures Blank(line) <==> AllSpace(line)
  {
    TrimStartOfSpace(line);
    TrimStartIsSuffix(line);
    TrimEndOfSpace(TrimStart(line));
  }

  lemma {:induction false} TrimEndOfConcat(a: string, b: string)
    ensures TrimEnd(a + b) == if AllSpace(b) then TrimEnd(a) else a + TrimEnd(b)
    decreases |b|
  {
    if b == "" {
      assert a + b == a;
    } else {
      var init, c := b[..|b| - 1], b[|b| - 1];
      assert b == init + [c] && (a + b)[..|a + b| - 1] == a + init;
      TrimEndOfConcat(a, init);
    }
  }

  lemma {:induction false} TrimStartOfConcat(a: string, b: string)
    requires !AllSpace(a)
    ensures TrimStart(a + b) == TrimStart(a) + b
    decreases |a|
  {
    assert a == [a[0]] + a[1..];
    if IsSpace(a[0]) {
      TrimStartOfConcat(a[1..], b);
      assert (a + b)[1..] == a[1..] + b;
    }
  }

  lemma TrimEndOfStripped(line: string)
    ensures TrimEnd(StripReturn(line)) == TrimEnd(line)
  {
    if EndsInReturn(line) {
      assert line == StripReturn(line) + "\r";
      TrimEndOfConcat(StripReturn(line), "\r");
    }
  }

  lemma TrimEndTwice(line: string)
    ensures TrimEnd(TrimEnd(line)) == TrimEnd(line)
  {
    TrimEndOfSpace(line);
  }

  /** A carriage return at the end does not change what trimming leaves. */
  lemma TrimOfStripped(line: string)
    ensures Trim(StripReturn(line)) == Trim(line)
  {
    var x := StripReturn(line);
    if x != line {
      assert line == x + "\r";
      if AllSpace(x) {
        BlankIsSpace(x);
        BlankIsSpace(line);
      } else {
        TrimStartOfConcat(x, "\r");
        TrimEndOfConcat(TrimStart(x), "\r");
      }
    }
  }
}
