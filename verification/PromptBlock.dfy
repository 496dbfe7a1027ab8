/**
 The managed block of a shell rc file: `install_block`, `remove_block` and the
 laws between them. The block is any text whose first and last lines are the
 markers and whose other lines do not close it.
 */
module PromptBlock {
  import opened Basics
  import opened Text
  import opened LineCut
  import opened RcLines

  const PROMPT_BEGIN := "# >>> aplexer prompt >>>"
  const PROMPT_END := "# <<< aplexer prompt <<<"

  ghost predicate ValidBlock(block: seq<string>) {
    && |block| >= 2 && NoNewlines(block) && NoReturns(block)
    && Trim(block[0]) == PROMPT_BEGIN && Trim(block[|block| - 1]) == PROMPT_END
    && forall k :: 0 <= k < |block| - 1 ==> Trim(block[k]) != PROMPT_END
  }

  /** The first line from `from` on that is the given marker. */
  function FirstMark(lines: seq<string>, mark: string, from: nat): (r: Option<nat>)
    requires from <= |lines|
    ensures r.Some? ==> from <= r.value < |lines| && Trim(lines[r.value]) == mark
                        && forall k :: from <= k < r.value ==> Trim(lines[k]) != mark
    ensures r.None? ==> forall k :: from <= k < |lines| ==> Trim(lines[k]) != mark
    decreases |lines| - from
  {
    if from == |lines| then None
    else if Trim(lines[from]) == mark then Some(from)
    else FirstMark(lines, mark, from + 1)
  }

  datatype Span = Span(begin: nat, end: Option<nat>)

  /** `find_block_lines`. */
  function FindBlock(lines: seq<string>): (r: Option<Span>)
    ensures Fits(r, |lines|)
  {
    FindMarks(lines, PROMPT_BEGIN, PROMPT_END)
  }

  function FindMarks(lines: seq<string>, opening: string, closing: string): (r: Option<Span>)
    ensures Fits(r, |lines|)
  {
    match FirstMark(lines, opening, 0)
    case None => None
    case Some(begin) => Some(Span(begin, FirstMark(lines, closing, begin)))
  }

  datatype BlockState = Current | Stale | Absent

  function StateOf(lines: seq<string>, block: seq<string>): BlockState {
    match FindBlock(lines)
    case None => Absent
    case Some(Span(_, None)) => Stale
    case Some(Span(begin, Some(end))) => if lines[begin..end + 1] == block then Current else Stale
  }

  /** What comes before the block, and what comes after it. */
  function Before(lines: seq<string>): seq<string> {
    BeforeSpan(lines, FindBlock(lines))
  }

  function After(lines: seq<string>): seq<string> {
    AfterSpan(lines, FindBlock(lines))
  }

  predicate Fits(span: Option<Span>, n: nat) {
    span.Some? ==> span.value.begin < n && (span.value.end.Some? ==> span.value.begin <= span.value.end.value < n)
  }

  function BeforeSpan(lines: seq<string>, span: Option<Span>): seq<string>
    requires Fits(span, |lines|)
  {
    if span.None? then lines else lines[..span.value.begin]
  }

  function AfterSpan(lines: seq<string>, span: Option<Span>): seq<string>
    requires Fits(span, |lines|)
  {
    if span.Some? && span.value.end.Some? then lines[span.value.end.value + 1..] else []
  }

  /** The user's own lines. An unclosed block reaches to the end of the file. */
  function Outside(lines: seq<string>): seq<string> {
    Before(lines) + After(lines)
  }

  /** The gap line before a first block. */
  function Gap(lines: seq<string>): seq<string> {
    if FindBlock(lines).None? && lines != [] then [""] else []
  }

  /** `install_block`: the new content, and whether it changed. */
  function Install(text: string, block: seq<string>): (string, bool) {
    var lines := LinesOf(text);
    if StateOf(lines, block) == Current then (text, false) else (JoinLines(Written(lines, block)), true)
  }

  function Written(lines: seq<string>, block: seq<string>): seq<string> {
    Before(lines) + Gap(lines) + block + After(lines)
  }

  // ---- Installing --------------------------------------------------------------------

  /** The first opening marker, and the first closing one from there on. */
  lemma MarksAreFound(lines: seq<string>, opening: string, closing: string, begin: nat, end: nat)
    requires begin <= end < |lines| && Trim(lines[begin]) == opening && Trim(lines[end]) == closing
    requires forall k :: 0 <= k < begin ==> Trim(lines[k]) != opening
    requires forall k :: begin <= k < end ==> Trim(lines[k]) != closing
    ensures FindMarks(lines, opening, closing) == Some(Span(begin, Some(end)))
  {
    assert FirstMark(lines, opening, 0) == Some(begin);
  }

  /** A block after lines without a begin marker is found whole. */
  lemma BlockIsFound(pre: seq<string>, block: seq<string>, post: seq<string>)
    requires ValidBlock(block)
    requires forall k :: 0 <= k < |pre| ==> Trim(pre[k]) != PROMPT_BEGIN
    ensures var lines := pre + block + post;
            && FindBlock(lines) == Some(Span(|pre|, Some(|pre| + |block| - 1)))
            && StateOf(lines, block) == Current
            && Before(lines) == pre && After(lines) == post
  {
    var lines := pre + block + post;
    var n := |pre|;
    assert forall k :: 0 <= k < n ==> lines[k] == pre[k];
    assert forall k :: n <= k < n + |block| ==> lines[k] == block[k - n];
    MarksAreFound(lines, PROMPT_BEGIN, PROMPT_END, n, n + |block| - 1);
    assert lines[n..n + |block|] == block;
    assert lines[..n] == pre && lines[n + |block|..] == post;
  }

  /** No line before the block is a begin marker. */
  lemma BeforeHasNoBegin(lines: seq<string>)
    ensures forall k :: 0 <= k < |Before(lines)| ==> Trim(Before(lines)[k]) != PROMPT_BEGIN
  {
  }

  /** The lines of a freshly written file. */
  lemma InstalledLines(pre: seq<string>, block: seq<string>, post: seq<string>)
    requires ValidBlock(block) && NoNewlines(pre) && NoNewlines(post)
    ensures LinesOf(JoinLines(pre + block + post)) == Strip(pre) + block + Strip(post)
  {
    LinesOfJoined(pre + block + post);
    StripAround(pre, block, post);
  }

  lemma StripAround(pre: seq<string>, block: seq<string>, post: seq<string>)
    requires NoReturns(block)
    ensures Strip(pre + block + post) == Strip(pre) + block + Strip(post)
  {
    StripJoins(pre + block, post);
    StripJoins(pre, block);
    StripClean(block);
  }

  lemma StripJoins(x: seq<string>, y: seq<string>)
    ensures Strip(x + y) == Strip(x) + Strip(y)
  {
  }

  lemma StripClean(lines: seq<string>)
    requires NoReturns(lines)
    ensures Strip(lines) == lines
  {
  }

  lemma StrippedMarks(pre: seq<string>)
    requires forall k :: 0 <= k < |pre| ==> Trim(pre[k]) != PROMPT_BEGIN
    ensures forall k :: 0 <= k < |pre| ==> Trim(Strip(pre)[k]) != PROMPT_BEGIN
  {
    forall k | 0 <= k < |pre| ensures Trim(Strip(pre)[k]) != PROMPT_BEGIN {
      TrimOfStripped(pre[k]);
    }
  }

  /** What a newly written file holds: the user's lines, a gap before a new block, and the block. */
  lemma WrittenLines(lines: seq<string>, block: seq<string>)
    requires ValidBlock(block) && NoNewlines(lines)
    ensures var after := LinesOf(JoinLines(Written(lines, block)));
            && StateOf(after, block) == Current
            && Before(after) == Strip(Before(lines) + Gap(lines))
            && After(after) == Strip(After(lines))
  {
    var pre, post := Before(lines) + Gap(lines), After(lines);
    PreHasNoBegin(lines);
    InstalledLines(pre, block, post);
    StrippedMarks(pre);
    BlockIsFound(Strip(pre), block, Strip(post));
  }

  lemma PreHasNoBegin(lines: seq<string>)
    requires NoNewlines(lines)
    ensures var pre := Before(lines) + Gap(lines);
            NoNewlines(pre) && NoNewlines(After(lines)) && forall k :: 0 <= k < |pre| ==> Trim(pre[k]) != PROMPT_BEGIN
  {
    BeforeHasNoBegin(lines);
  }

  /** After an install the block is current, for every text; a second install changes nothing. */
  lemma InstallIsIdempotent(text: string, block: seq<string>)
    requires ValidBlock(block)
    ensures var (once, _) := Install(text, block);
            StateOf(LinesOf(once), block) == Current && Install(once, block) == (once, false)
  {
    LinesHaveNoNewlines(text);
    WrittenLines(LinesOf(text), block);
  }

  // ---- Which bytes an install keeps --------------------------------------------------

  /** The bytes before and after the block, up to a final newline. */
  function OwnBefore(text: string): string {
    JoinLines(Before(RawLines(text)))
  }

  function OwnAfter(text: string): string {
    JoinLines(After(RawLines(text)))
  }

  /** The new text has the bytes of the old one outside the block, and a gap line where a first block was added. */
  predicate KeepsOwnBytes(text: string, after: string, changed: bool) {
    && OwnBefore(after) == OwnBefore(text) + JoinLines(if changed then Gap(LinesOf(text)) else [])
    && OwnAfter(after) == OwnAfter(text)
  }

  /** Position `i` lies outside the block. */
  predicate IsOutside(span: Option<Span>, i: nat) {
    span.Some? ==> i < span.value.begin || (span.value.end.Some? && span.value.end.value < i)
  }

  /** Some line outside the block ends in a carriage return and a newline. */
  ghost predicate CrLfOutside(text: string) {
    exists i :: 0 <= i < |CutLines(text).lines| && IsOutside(FindBlock(LinesOf(text)), i)
                && EndsInReturn(CutLines(text).lines[i])
  }

  ghost predicate SameTrims(x: seq<string>, y: seq<string>) {
    |x| == |y| && forall i :: 0 <= i < |x| ==> Trim(x[i]) == Trim(y[i])
  }

  /** The block is found by what trimming leaves of the lines. */
  lemma SameMarksSameBlock(x: seq<string>, y: seq<string>, opening: string, closing: string)
    requires SameTrims(x, y)
    ensures FindMarks(x, opening, closing) == FindMarks(y, opening, closing)
  {
    SameFirstMark(x, y, opening, 0);
    var begin := FirstMark(x, opening, 0);
    if begin.Some? {
      SameFirstMark(x, y, closing, begin.value);
    }
  }

  lemma {:induction false} SameFirstMark(x: seq<string>, y: seq<string>, mark: string, from: nat)
    requires SameTrims(x, y) && from <= |x|
    ensures FirstMark(x, mark, from) == FirstMark(y, mark, from)
    decreases |x| - from
  {
    if from < |x| && Trim(x[from]) != mark {
      SameFirstMark(x, y, mark, from + 1);
    }
  }

  lemma RawBlock(text: string)
    ensures FindBlock(RawLines(text)) == FindBlock(LinesOf(text))
  {
    RawAndStripped(text);
    forall i | 0 <= i < |RawLines(text)| ensures Trim(LinesOf(text)[i]) == Trim(RawLines(text)[i]) {
      TrimOfStripped(RawLines(text)[i]);
    }
    SameMarksSameBlock(RawLines(text), LinesOf(text), PROMPT_BEGIN, PROMPT_END);
  }

  /** The bytes outside the block of a newly written file. */
  lemma WrittenOwnBytes(lines: seq<string>, block: seq<string>)
    requires ValidBlock(block) && NoNewlines(lines)
    ensures var after := JoinLines(Written(lines, block));
            && OwnBefore(after) == JoinLines(Before(lines)) + JoinLines(Gap(lines))
            && OwnAfter(after) == JoinLines(After(lines))
  {
    var pre, post := Before(lines) + Gap(lines), After(lines);
    PreHasNoBegin(lines);
    RawLinesOfJoined(pre + block + post);
    BlockIsFound(pre, block, post);
    JoinOfConcat(Before(lines), Gap(lines));
  }

  lemma {:induction false} JoinOfConcat(x: seq<string>, y: seq<string>)
    ensures JoinLines(x + y) == JoinLines(x) + JoinLines(y)
    decreases |y|
  {
    if y == [] {
      assert x + y == x;
    } else {
      var init, last := y[..|y| - 1], y[|y| - 1];
      JoinOfConcat(x, init);
      assert y == init + [last];
      JoinOneMore(x, init, last);
    }
  }

  lemma JoinOneMore(x: seq<string>, y: seq<string>, line: string)
    requires JoinLines(x + y) == JoinLines(x) + JoinLines(y)
    ensures JoinLines(x + (y + [line])) == JoinLines(x) + JoinLines(y + [line])
  {
    assert x + (y + [line]) == x + y + [line];
    JoinGrows(x + y, line);
    JoinGrows(y, line);
    Regroup(JoinLines(x), JoinLines(y), line, "\n");
  }

  lemma Regroup(a: string, b: string, c: string, d: string)
    ensures a + b + c + d == a + (b + c + d)
  {
  }

  /** `lines` are `raw`, some of them without a final carriage return. */
  ghost predicate LosesReturns(raw: seq<string>, lines: seq<string>) {
    |raw| == |lines| && forall i :: 0 <= i < |raw| ==> lines[i] == raw[i] || lines[i] == StripReturn(raw[i])
  }

  lemma LosesReturnsAround(raw: seq<string>, lines: seq<string>, span: Option<Span>)
    requires LosesReturns(raw, lines) && Fits(span, |lines|)
    ensures LosesReturns(BeforeSpan(raw, span), BeforeSpan(lines, span))
    ensures LosesReturns(AfterSpan(raw, span), AfterSpan(lines, span))
  {
  }

  /** Lines that differ from others only by lost carriage returns join to the same text only if none was lost. */
  lemma {:induction false} JoinTellsReturns(raw: seq<string>, lines: seq<string>)
    requires LosesReturns(raw, lines)
    ensures |JoinLines(lines)| <= |JoinLines(raw)|
    ensures JoinLines(lines) == JoinLines(raw) <==> lines == raw
    decreases |raw|
  {
    if raw != [] {
      var n := |raw| - 1;
      LosesLast(raw, lines, n);
      JoinTellsReturns(raw[..n], lines[..n]);
      JoinTellsLast(raw[..n], raw[n], lines[..n], lines[n]);
    }
  }

  lemma LosesLast(raw: seq<string>, lines: seq<string>, n: nat)
    requires LosesReturns(raw, lines) && n + 1 == |raw|
    ensures LosesReturns(raw[..n], lines[..n]) && |lines[n]| <= |raw[n]|
    ensures raw == raw[..n] + [raw[n]] && lines == lines[..n] + [lines[n]]
    ensures lines == raw <==> lines[..n] == raw[..n] && lines[n] == raw[n]
  {
  }

  lemma JoinTellsLast(raw: seq<string>, last: string, lines: seq<string>, line: string)
    requires |JoinLines(lines)| <= |JoinLines(raw)| && |line| <= |last|
    ensures |JoinLines(lines + [line])| <= |JoinLines(raw + [last])|
    ensures JoinLines(lines + [line]) == JoinLines(raw + [last])
            <==> JoinLines(lines) == JoinLines(raw) && line == last
  {
    JoinGrows(lines, line);
    JoinGrows(raw, last);
    SameEnds(JoinLines(lines), line, JoinLines(raw), last);
  }

  /** Texts that are no longer part by part are equal only part by part. */
  lemma SameEnds(a: string, x: string, b: string, y: string)
    requires |a| <= |b| && |x| <= |y|
    ensures a + x + "\n" == b + y + "\n" <==> a == b && x == y
  {
    if a + x + "\n" == b + y + "\n" {
      assert |a + x + "\n"| == |b + y + "\n"|;
      assert a == (a + x + "\n")[..|a|] && b == (b + y + "\n")[..|b|];
      assert x == (a + x + "\n")[|a|..|a| + |x|] && y == (b + y + "\n")[|b|..|b| + |y|];
    }
  }

  /**
   An install keeps the bytes outside the markers, up to a final newline, if and only
   if the block was current already or no line outside it ends in CR LF.
   */
  lemma InstallKeepsBytesExactly(text: string, block: seq<string>)
    requires ValidBlock(block)
    ensures KeepsOwnBytes(text, Install(text, block).0, Install(text, block).1)
            <==> StateOf(LinesOf(text), block) == Current || !CrLfOutside(text)
  {
    if StateOf(LinesOf(text), block) != Current {
      RewriteKeepsExactly(text, block);
      JoinsTellReturns(text);
      KeptLinesExactly(text);
    }
  }

  /** A rewritten file has the bytes outside the block if and only if its lines there join to them. */
  lemma RewriteKeepsExactly(text: string, block: seq<string>)
    requires ValidBlock(block)
    ensures var lines, raw := LinesOf(text), RawLines(text);
            KeepsOwnBytes(text, JoinLines(Written(lines, block)), true)
            <==> JoinLines(Before(lines)) == JoinLines(Before(raw)) && JoinLines(After(lines)) == JoinLines(After(raw))
  {
    LinesHaveNoNewlines(text);
    WrittenOwnBytes(LinesOf(text), block);
    SameWithGap(JoinLines(Before(RawLines(text))), JoinLines(Before(LinesOf(text))), JoinLines(Gap(LinesOf(text))));
  }

  lemma JoinsTellReturns(text: string)
    ensures var lines, raw := LinesOf(text), RawLines(text);
            && (JoinLines(Before(lines)) == JoinLines(Before(raw)) <==> Before(lines) == Before(raw))
            && (JoinLines(After(lines)) == JoinLines(After(raw)) <==> After(lines) == After(raw))
  {
    var lines, raw := LinesOf(text), RawLines(text);
    RawBlock(text);
    RawAndStripped(text);
    LosesReturnsAround(raw, lines, FindBlock(lines));
    JoinTellsReturns(Before(raw), Before(lines));
    JoinTellsReturns(After(raw), After(lines));
  }

  lemma SameWithGap(x: string, y: string, gap: string)
    ensures x == y <==> x + gap == y + gap
  {
    if x + gap == y + gap {
      assert |x| == |y|;
      assert (x + gap)[..|x|] == x && (y + gap)[..|y|] == y;
    }
  }

  lemma KeptLinesExactly(text: string)
    ensures Before(LinesOf(text)) == Before(RawLines(text)) && After(LinesOf(text)) == After(RawLines(text))
            <==> !CrLfOutside(text)
  {
    RawAndStripped(text);
    RawBlock(text);
    SpanAgrees(LinesOf(text), RawLines(text), FindBlock(LinesOf(text)));
    LostReturns(text, FindBlock(LinesOf(text)));
  }

  /** The lines around a span agree if and only if each of them does. */
  lemma SpanAgrees(x: seq<string>, y: seq<string>, span: Option<Span>)
    requires |x| == |y| && Fits(span, |x|)
    ensures BeforeSpan(x, span) == BeforeSpan(y, span) && AfterSpan(x, span) == AfterSpan(y, span)
            <==> forall i :: 0 <= i < |x| && IsOutside(span, i) ==> x[i] == y[i]
  {
    var begin := if span.None? then |x| else span.value.begin;
    var end := if span.Some? && span.value.end.Some? then span.value.end.value + 1 else |x|;
    SlicesAgree(x, y, 0, begin);
    SlicesAgree(x, y, end, |x|);
    assert x[..begin] == x[0..begin] && y[..begin] == y[0..begin];
    assert x[end..] == x[end..|x|] && y[end..] == y[end..|y|];
  }

  lemma SlicesAgree(x: seq<string>, y: seq<string>, i: nat, j: nat)
    requires |x| == |y| && i <= j <= |x|
    ensures x[i..j] == y[i..j] <==> forall k :: i <= k < j ==> x[k] == y[k]
  {
    if x[i..j] == y[i..j] {
      forall k | i <= k < j ensures x[k] == y[k] {
        assert x[i..j][k - i] == x[k] && y[i..j][k - i] == y[k];
      }
    }
  }

  /** A line outside the span differs from its raw form if and only if it lost a carriage return. */
  lemma LostReturns(text: string, span: Option<Span>)
    ensures |LinesOf(text)| == |RawLines(text)|
    ensures (forall i :: 0 <= i < |LinesOf(text)| && IsOutside(span, i) ==> LinesOf(text)[i] == RawLines(text)[i])
            <==> !(exists i :: 0 <= i < |CutLines(text).lines| && IsOutside(span, i)
                               && EndsInReturn(CutLines(text).lines[i]))
  {
    RawAndStripped(text);
    var n := |CutLines(text).lines|;
    forall i | 0 <= i < n ensures LinesOf(text)[i] == RawLines(text)[i] <==> !EndsInReturn(CutLines(text).lines[i]) {
      assert RawLines(text)[i] == CutLines(text).lines[i];
    }
  }

  /** One line with a CR LF ending, and no block: its carriage return is lost. */
  lemma CrLfIsLost(block: seq<string>)
    requires ValidBlock(block)
    ensures !KeepsOwnBytes("a\r\n", Install("a\r\n", block).0, Install("a\r\n", block).1)
  {
    OneCrLfLine();
    NoBlockInLetter();
    assert CrLfOutside("a\r\n") by {
      assert IsOutside(None, 0) && EndsInReturn(CutLines("a\r\n").lines[0]);
    }
    InstallKeepsBytesExactly("a\r\n", block);
  }

  lemma OneCrLfLine()
    ensures CutLines("a\r\n") == Cut(["a\r"], "") && LinesOf("a\r\n") == ["a"]
  {
    CutFirstLine("a\r", "");
    assert "a\r" + [NEWLINE] + "" == "a\r\n" && StripReturn("a\r") == "a";
    assert Strip(["a\r"]) == ["a"];
  }

  lemma NoBlockInLetter()
    ensures FindBlock(["a"]) == None
  {
    TrimOfLetter();
    assert FirstMark(["a"], PROMPT_BEGIN, 1).None?;
  }

  lemma TrimOfLetter()
    ensures Trim("a") == "a"
  {
    assert !IsSpace('a');
  }

  // ---- What an install writes ------------------------------------------------------------

  /**
   The block is current if and only if it stands in the file after lines without a begin
   marker, and absent if and only if no line is a begin marker.
   */
  lemma StateExactly(lines: seq<string>, block: seq<string>)
    requires ValidBlock(block)
    ensures StateOf(lines, block) == Absent <==> forall k :: 0 <= k < |lines| ==> Trim(lines[k]) != PROMPT_BEGIN
    ensures StateOf(lines, block) == Current
            <==> exists pre, post :: lines == pre + block + post && NoBegin(pre)
  {
    forall pre, post | lines == pre + block + post && NoBegin(pre) ensures StateOf(lines, block) == Current {
      BlockIsFound(pre, block, post);
    }
    if StateOf(lines, block) == Current {
      var begin, end := FindBlock(lines).value.begin, FindBlock(lines).value.end.value;
      assert lines == lines[..begin] + lines[begin..end + 1] + lines[end + 1..];
      BeforeHasNoBegin(lines);
      assert NoBegin(lines[..begin]);
    }
  }

  ghost predicate NoBegin(lines: seq<string>) {
    forall k :: 0 <= k < |lines| ==> Trim(lines[k]) != PROMPT_BEGIN
  }

  /** Installing into a file without a block adds one blank line, unless the file is empty, and the block. */
  lemma FirstInstallAppends(lines: seq<string>, block: seq<string>)
    requires ValidBlock(block) && NoNewlines(lines) && NoReturns(lines) && NoBegin(lines)
    ensures Install(JoinLines(lines), block)
            == (JoinLines(lines) + (if lines == [] then "" else "\n") + JoinLines(block), true)
  {
    LinesOfJoined(lines);
    assert FindBlock(lines).None?;
    AppendOf(JoinLines(lines), lines, block);
    JoinOfConcat(lines + Gap(lines), block);
    JoinOfConcat(lines, Gap(lines));
    BlankLine();
  }

  lemma AppendOf(text: string, lines: seq<string>, block: seq<string>)
    requires LinesOf(text) == lines && FindBlock(lines).None?
    ensures Install(text, block) == (JoinLines(lines + Gap(lines) + block), true)
  {
    assert lines + Gap(lines) + block + [] == lines + Gap(lines) + block;
  }

  lemma BlankLine()
    ensures JoinLines([""]) == "\n" && JoinLines([]) == ""
  {
    assert [""][..0] == [];
  }

  /** Installing over an older block, closed or not, puts the new one in its place and keeps what is around it. */
  lemma ReinstallReplaces(pre: seq<string>, former: seq<string>, post: seq<string>, block: seq<string>)
    requires ValidBlock(block) && NoNewlines(pre + former + post) && NoReturns(pre + former + post) && NoBegin(pre)
    requires former != [] && Trim(former[0]) == PROMPT_BEGIN && former != block
    requires forall k :: 0 <= k < |former| - 1 ==> Trim(former[k]) != PROMPT_END
    requires post == [] || Trim(former[|former| - 1]) == PROMPT_END
    ensures Install(JoinLines(pre + former + post), block) == (JoinLines(pre + block + post), true)
  {
    var lines := pre + former + post;
    LinesOfJoined(lines);
    OldBlockSpan(pre, former, post, block);
    RewriteOf(JoinLines(lines), lines, pre, post, block);
  }

  lemma RewriteOf(text: string, lines: seq<string>, pre: seq<string>, post: seq<string>, block: seq<string>)
    requires LinesOf(text) == lines && StateOf(lines, block) != Current && FindBlock(lines).Some?
    requires Before(lines) == pre && After(lines) == post
    ensures Install(text, block) == (JoinLines(pre + block + post), true)
  {
    assert pre + [] == pre;
  }

  lemma MarkIsFirst(lines: seq<string>, mark: string, n: nat)
    requires n < |lines| && Trim(lines[n]) == mark && forall k :: 0 <= k < n ==> Trim(lines[k]) != mark
    ensures FirstMark(lines, mark, 0) == Some(n)
  {
    var r := FirstMark(lines, mark, 0);
    assert r.Some? && r.value <= n;
  }

  /** Where an older block is found: up to its end marker, or to the end of the file without one. */
  lemma OldBlockSpan(pre: seq<string>, former: seq<string>, post: seq<string>, block: seq<string>)
    requires NoBegin(pre) && former != [] && Trim(former[0]) == PROMPT_BEGIN
    requires forall k :: 0 <= k < |former| - 1 ==> Trim(former[k]) != PROMPT_END
    requires post == [] || Trim(former[|former| - 1]) == PROMPT_END
    ensures var lines := pre + former + post;
            && Before(lines) == pre && After(lines) == post && FindBlock(lines).Some?
            && (block != former ==> StateOf(lines, block) != Current)
  {
    var lines, n, m := pre + former + post, |pre|, |pre| + |former| - 1;
    assert forall k :: 0 <= k < n ==> lines[k] == pre[k];
    assert forall k :: n <= k <= m ==> lines[k] == former[k - n];
    if Trim(former[|former| - 1]) == PROMPT_END {
      MarksAreFound(lines, PROMPT_BEGIN, PROMPT_END, n, m);
      assert lines[n..m + 1] == former;
    } else {
      MarkIsFirst(lines, PROMPT_BEGIN, n);
      forall k | n <= k < |lines| ensures Trim(lines[k]) != PROMPT_END {
        assert lines[k] == former[k - n];
      }
    }
    assert lines[..n] == pre && lines[m + 1..] == post;
  }

  // ---- Removing ----------------------------------------------------------------------

  /** Blank lines dropped at the start and after another blank line. */
  function Tidy(lines: seq<string>): seq<string> {
    if lines == [] then []
    else
      var before, line := Tidy(lines[..|lines| - 1]), lines[|lines| - 1];
      if Blank(line) && (before == [] || Blank(before[|before| - 1])) then before else before + [line]
  }

  /** What is left after the joined text is trimmed at its end. */
  function Kept(lines: seq<string>): seq<string> {
    if lines == [] then []
    else if Blank(lines[|lines| - 1]) then Kept(lines[..|lines| - 1])
    else lines[..|lines| - 1] + [TrimEnd(lines[|lines| - 1])]
  }

  /** The loop of `remove_block`. */
  method TidyLines(next: seq<string>) returns (tidy: seq<string>)
    ensures tidy == Tidy(next)
  {
    tidy := [];
    for i := 0 to |next|
      invariant tidy == Tidy(next[..i])
    {
      assert next[..i + 1][..i] == next[..i];
      if !(Blank(next[i]) && (tidy == [] || Blank(tidy[|tidy| - 1]))) {
        tidy := tidy + [next[i]];
      }
    }
    assert next[..|next|] == next;
  }

  /** The text written for tidied lines. */
  function Closed(tidy: seq<string>): string {
    TrimEnd(JoinLines(tidy)) + if tidy == [] then "" else "\n"
  }

  /** The text with a final newline. */
  function WithNewline(text: string): string {
    if text == "" || text[|text| - 1] == '\n' then text else text + "\n"
  }

  /** What removing the block leaves. */
  function Removed(text: string): string {
    if FindBlock(LinesOf(text)).Some? then Closed(Tidy(Outside(LinesOf(text)))) else text
  }

  /** `remove_block`. */
  method Remove(text: string) returns (after: string, changed: bool)
    ensures changed <==> FindBlock(LinesOf(text)).Some?
    ensures after == Removed(text)
  {
    var lines := LinesOf(text);
    var found := FindBlock(lines);
    if found.None? { return text, false; }
    var next := Cutout(lines, found.value);
    var tidy := TidyLines(next);
    return Closed(tidy), true;
  }

  /** The lines around the span, as the source slices them. */
  method Cutout(lines: seq<string>, span: Span) returns (next: seq<string>)
    requires FindBlock(lines) == Some(span)
    ensures next == Outside(lines)
  {
    var end := if span.end.Some? then span.end.value else Max(Max(|lines| - 1, 0), span.begin);
    next := lines[..span.begin] + lines[end + 1..];
  }

  lemma TrimEndOfLine(line: string)
    requires !AllSpace(line)
    ensures !AllSpace(line + "\n") && TrimEnd(line + "\n") == TrimEnd(line)
  {
    var i :| 0 <= i < |line| && !IsSpace(line[i]);
    assert (line + "\n")[i] == line[i];
    TrimEndOfConcat(line, "\n");
  }

  /** The text of what `Remove` leaves. */
  lemma {:induction false} KeptText(lines: seq<string>)
    ensures TrimEnd(JoinLines(lines)) + (if Kept(lines) == [] then "" else "\n") == JoinLines(Kept(lines))
    decreases |lines|
  {
    if lines != [] {
      var init, last := lines[..|lines| - 1], lines[|lines| - 1];
      assert JoinLines(lines) == JoinLines(init) + (last + "\n");
      TrimEndOfConcat(JoinLines(init), last + "\n");
      BlankIsSpace(last);
      if Blank(last) {
        KeptText(init);
      } else {
        TrimEndOfLine(last);
        assert Kept(lines)[..|Kept(lines)| - 1] == init;
      }
    }
  }

  /** A tidied file begins with a line that is not blank, so something of it is kept. */
  lemma {:induction false} TidyStarts(lines: seq<string>)
    ensures Tidy(lines) != [] ==> !Blank(Tidy(lines)[0])
    decreases |lines|
  {
    if lines != [] {
      TidyStarts(lines[..|lines| - 1]);
    }
  }

  lemma {:induction false} KeptIsEmpty(lines: seq<string>)
    ensures Kept(lines) == [] <==> forall k :: 0 <= k < |lines| ==> Blank(lines[k])
    decreases |lines|
  {
    if lines != [] {
      KeptIsEmpty(lines[..|lines| - 1]);
    }
  }

  lemma {:induction false} TidyFrom(lines: seq<string>)
    ensures forall l :: l in Tidy(lines) ==> l in lines
    decreases |lines|
  {
    if lines != [] {
      TidyFrom(lines[..|lines| - 1]);
    }
  }

  lemma {:induction false} KeptClean(lines: seq<string>)
    requires NoNewlines(lines)
    ensures NoNewlines(Kept(lines)) && (NoReturns(lines) ==> NoReturns(Kept(lines)))
    decreases |lines|
  {
    if lines != [] {
      KeptClean(lines[..|lines| - 1]);
      TrimEndOfSpace(lines[|lines| - 1]);
    }
  }

  /** The text written for tidied lines, as the lines that are kept. */
  lemma TidiedText(lines: seq<string>)
    requires NoNewlines(lines)
    ensures NoNewlines(Kept(Tidy(lines))) && (NoReturns(lines) ==> NoReturns(Kept(Tidy(lines))))
    ensures WithNewline(Closed(Tidy(lines))) == Closed(Tidy(lines)) == JoinLines(Kept(Tidy(lines)))
  {
    var tidy := Tidy(lines);
    TidyFrom(lines);
    forall k | 0 <= k < |tidy| ensures '\n' !in tidy[k] && (NoReturns(lines) ==> '\r' !in tidy[k]) {
      assert tidy[k] in lines;
    }
    TidyStarts(lines);
    KeptIsEmpty(tidy);
    KeptText(tidy);
    KeptClean(tidy);
  }

  /** What `Remove` leaves, line by line. */
  lemma RemovedLines(text: string, tidy: seq<string>)
    requires tidy == Tidy(Outside(LinesOf(text)))
    ensures LinesOf(Closed(tidy)) == Strip(Kept(tidy))
    ensures '\r' !in text ==> LinesOf(Closed(tidy)) == Kept(tidy)
  {
    LinesHaveNoNewlines(text);
    OutsideClean(LinesOf(text));
    TidiedLines(Outside(LinesOf(text)), tidy);
  }

  lemma OutsideClean(lines: seq<string>)
    requires NoNewlines(lines)
    ensures NoNewlines(Outside(lines)) && (NoReturns(lines) ==> NoReturns(Outside(lines)))
  {
  }

  lemma TidiedLines(lines: seq<string>, tidy: seq<string>)
    requires NoNewlines(lines) && tidy == Tidy(lines)
    ensures LinesOf(Closed(tidy)) == Strip(Kept(tidy))
    ensures NoReturns(lines) ==> LinesOf(Closed(tidy)) == Kept(tidy)
  {
    TidiedText(lines);
    LinesOfJoined(Kept(tidy));
  }

  // ---- Installing, then removing -------------------------------------------------------

  function NonBlank(lines: seq<string>): seq<string> {
    if lines == [] then []
    else NonBlank(lines[..|lines| - 1]) + if Blank(lines[|lines| - 1]) then [] else [lines[|lines| - 1]]
  }

  /** The last line, without its trailing whitespace. */
  function TrimLast(lines: seq<string>): seq<string> {
    if lines == [] then [] else lines[..|lines| - 1] + [TrimEnd(lines[|lines| - 1])]
  }

  lemma {:induction false} NonBlankJoins(x: seq<string>, y: seq<string>)
    ensures NonBlank(x + y) == NonBlank(x) + NonBlank(y)
    decreases |y|
  {
    if y == [] {
      assert x + y == x;
    } else {
      NonBlankJoins(x, y[..|y| - 1]);
      assert (x + y)[..|x + y| - 1] == x + y[..|y| - 1];
    }
  }

  lemma {:induction false} TidyKeepsNonBlank(lines: seq<string>)
    ensures NonBlank(Tidy(lines)) == NonBlank(lines)
    decreases |lines|
  {
    if lines != [] {
      var init, last := lines[..|lines| - 1], lines[|lines| - 1];
      TidyKeepsNonBlank(init);
      NonBlankJoins(Tidy(init), [last]);
      assert NonBlank([last]) == if Blank(last) then [] else [last];
    }
  }

  lemma {:induction false} KeptKeepsNonBlank(lines: seq<string>)
    ensures NonBlank(Kept(lines)) == TrimLast(NonBlank(lines))
    decreases |lines|
  {
    if lines != [] {
      var init, last := lines[..|lines| - 1], lines[|lines| - 1];
      if Blank(last) {
        KeptKeepsNonBlank(init);
      } else {
        NonBlankJoins(init, [TrimEnd(last)]);
        TrimmedStaysNonBlank(last);
        assert NonBlank([TrimEnd(last)]) == [TrimEnd(last)];
        assert TrimLast(NonBlank(init) + [last]) == NonBlank(init) + [TrimEnd(last)];
      }
    }
  }

  lemma TrimmedStaysNonBlank(line: string)
    requires !Blank(line)
    ensures !Blank(TrimEnd(line))
  {
    BlankIsSpace(line);
    TrimEndOfSpace(line);
    BlankIsSpace(TrimEnd(line));
  }

  /** The lines that are not blank, without trailing whitespace. */
  function Gist(lines: seq<string>): seq<string> {
    if lines == [] then []
    else Gist(lines[..|lines| - 1]) + if Blank(lines[|lines| - 1]) then [] else [TrimEnd(lines[|lines| - 1])]
  }

  lemma {:induction false} GistJoins(x: seq<string>, y: seq<string>)
    ensures Gist(x + y) == Gist(x) + Gist(y)
    decreases |y|
  {
    if y == [] {
      assert x + y == x;
    } else {
      GistJoins(x, y[..|y| - 1]);
      assert (x + y)[..|x + y| - 1] == x + y[..|y| - 1];
    }
  }

  lemma {:induction false} GistOfStripped(lines: seq<string>)
    ensures Gist(Strip(lines)) == Gist(lines)
    decreases |lines|
  {
    if lines != [] {
      var n := |lines| - 1;
      GistOfStripped(lines[..n]);
      assert Strip(lines)[..n] == Strip(lines[..n]);
      TrimOfStripped(lines[n]);
      TrimEndOfStripped(lines[n]);
    }
  }

  lemma {:induction false} GistOfTidy(lines: seq<string>)
    ensures Gist(Tidy(lines)) == Gist(lines)
    decreases |lines|
  {
    if lines != [] {
      var init, last := lines[..|lines| - 1], lines[|lines| - 1];
      GistOfTidy(init);
      GistJoins(Tidy(init), [last]);
      assert [last][..0] == [];
    }
  }

  lemma {:induction false} GistOfKept(lines: seq<string>)
    ensures Gist(Kept(lines)) == Gist(lines)
    decreases |lines|
  {
    if lines != [] {
      var init, last := lines[..|lines| - 1], lines[|lines| - 1];
      if Blank(last) {
        GistOfKept(init);
      } else {
        GistJoins(init, [TrimEnd(last)]);
        TrimmedStaysNonBlank(last);
        TrimEndTwice(last);
        assert [TrimEnd(last)][..0] == [];
      }
    }
  }

  /** Neither writing the block nor the gap before it changes the gist of the lines around it. */
  lemma GistOfInstalled(text: string, block: seq<string>)
    requires ValidBlock(block)
    ensures Gist(Outside(LinesOf(Install(text, block).0))) == Gist(Outside(LinesOf(text)))
  {
    LinesHaveNoNewlines(text);
    GistOfWritten(LinesOf(text), block);
  }

  lemma GistOfWritten(lines: seq<string>, block: seq<string>)
    requires ValidBlock(block) && NoNewlines(lines)
    ensures Gist(Outside(LinesOf(JoinLines(Written(lines, block))))) == Gist(Outside(lines))
  {
    var pre, gap, post := Before(lines), Gap(lines), After(lines);
    WrittenLines(lines, block);
    GistJoins(Strip(pre + gap), Strip(post));
    GistOfStripped(pre + gap);
    GistOfStripped(post);
    GistJoins(pre, post);
    GistOfGap(pre, gap);
  }

  lemma GistOfGap(pre: seq<string>, gap: seq<string>)
    requires gap == [] || gap == [""]
    ensures Gist(pre + gap) == Gist(pre)
  {
    if gap == [] {
      assert pre + gap == pre;
    } else {
      assert (pre + gap)[..|pre|] == pre && Blank("");
    }
  }

  /**
   Install, then remove: the lines outside the block that are not blank come back in
   order and unchanged up to trailing whitespace; without carriage returns, up to
   trailing whitespace at the end of the file.
   */
  method InstallThenRemove(text: string, block: seq<string>) returns (after: string)
    requires ValidBlock(block)
    ensures Gist(LinesOf(after)) == Gist(Outside(LinesOf(text)))
    ensures '\r' !in text ==> NonBlank(LinesOf(after)) == TrimLast(NonBlank(Outside(LinesOf(text))))
  {
    var (installed, _) := Install(text, block);
    var changed;
    after, changed := Remove(installed);
    InstallIsIdempotent(text, block);
    RemovedKeeps(installed);
    GistOfInstalled(text, block);
    if '\r' !in text {
      InstalledIsClean(text, block);
      InstallKeepsNonBlank(text, block);
    }
  }

  lemma RemovedKeeps(text: string)
    ensures var outside := Outside(LinesOf(text));
            var left := LinesOf(Closed(Tidy(outside)));
            Gist(left) == Gist(outside) && ('\r' !in text ==> NonBlank(left) == TrimLast(NonBlank(outside)))
  {
    var outside := Outside(LinesOf(text));
    RemovedLines(text, Tidy(outside));
    GistOfStripped(Kept(Tidy(outside)));
    GistOfKept(Tidy(outside));
    GistOfTidy(outside);
    KeptKeepsNonBlank(Tidy(outside));
    TidyKeepsNonBlank(outside);
  }

  lemma {:induction false} JoinedHasNoReturn(lines: seq<string>)
    requires NoReturns(lines)
    ensures '\r' !in JoinLines(lines)
    decreases |lines|
  {
    if lines != [] {
      JoinedHasNoReturn(lines[..|lines| - 1]);
    }
  }

  lemma InstalledIsClean(text: string, block: seq<string>)
    requires ValidBlock(block) && '\r' !in text
    ensures '\r' !in Install(text, block).0
  {
    LinesHaveNoNewlines(text);
    WrittenIsClean(LinesOf(text), block);
    JoinedHasNoReturn(Written(LinesOf(text), block));
  }

  lemma WrittenIsClean(lines: seq<string>, block: seq<string>)
    requires NoReturns(lines) && NoReturns(block)
    ensures NoReturns(Written(lines, block))
  {
    var pre, post := Before(lines), After(lines);
    assert NoReturns(pre) && NoReturns(post) && NoReturns(Gap(lines));
  }

  lemma InstallKeepsNonBlank(text: string, block: seq<string>)
    requires ValidBlock(block) && '\r' !in text
    ensures NonBlank(Outside(LinesOf(Install(text, block).0))) == NonBlank(Outside(LinesOf(text)))
  {
    LinesHaveNoNewlines(text);
    WrittenKeepsNonBlank(LinesOf(text), block);
  }

  lemma WrittenKeepsNonBlank(lines: seq<string>, block: seq<string>)
    requires ValidBlock(block) && NoNewlines(lines) && NoReturns(lines)
    ensures NonBlank(Outside(LinesOf(JoinLines(Written(lines, block))))) == NonBlank(Outside(lines))
  {
    var pre, gap, post := Before(lines), Gap(lines), After(lines);
    WrittenLines(lines, block);
    CleanAround(lines, FindBlock(lines));
    StripClean(pre + gap);
    StripClean(post);
    GapIsBlank(pre, gap, post);
  }

  lemma CleanAround(lines: seq<string>, span: Option<Span>)
    requires Fits(span, |lines|) && NoReturns(lines)
    ensures NoReturns(BeforeSpan(lines, span)) && NoReturns(BeforeSpan(lines, span) + [""])
    ensures NoReturns(AfterSpan(lines, span))
  {
  }

  lemma GapIsBlank(pre: seq<string>, gap: seq<string>, post: seq<string>)
    requires gap == [] || gap == [""]
    ensures NonBlank(pre + gap + post) == NonBlank(pre + post)
  {
    if gap == [] {
      assert pre + gap == pre;
    } else {
      assert NonBlank(pre + gap) == NonBlank(pre) by {
        assert (pre + gap)[..|pre|] == pre && Blank("");
      }
      NonBlankJoins(pre + gap, post);
      NonBlankJoins(pre, post);
    }
  }

  // ---- When everything outside the markers is preserved ----------------------------------

  /** No blank line at the start, after another, or at the end; no trailing whitespace there. */
  predicate Neat(lines: seq<string>) {
    && NoBlankRuns(lines)
    && (lines != [] ==> !Blank(lines[|lines| - 1]) && TrimEnd(lines[|lines| - 1]) == lines[|lines| - 1])
  }

  predicate NoBlankRuns(lines: seq<string>) {
    forall i :: 0 <= i < |lines| && Blank(lines[i]) ==> i > 0 && !Blank(lines[i - 1])
  }

  lemma {:induction false} TidyShrinks(lines: seq<string>)
    ensures |Tidy(lines)| <= |lines|
    ensures NoBlankRuns(lines) ==> Tidy(lines) == lines
    ensures |Tidy(lines)| == |lines| ==> NoBlankRuns(lines)
    decreases |lines|
  {
    if lines != [] {
      var init, last := lines[..|lines| - 1], lines[|lines| - 1];
      TidyShrinks(init);
      assert lines == init + [last];
      BlankRunsGrow(init, last);
    }
  }

  lemma BlankRunsGrow(init: seq<string>, last: string)
    ensures NoBlankRuns(init + [last])
            <==> NoBlankRuns(init) && (Blank(last) ==> init != [] && !Blank(init[|init| - 1]))
  {
    var lines := init + [last];
    assert forall i :: 0 <= i < |init| ==> lines[i] == init[i];
    assert lines[|init|] == last;
    if NoBlankRuns(lines) {
      forall i | 0 <= i < |init| && Blank(init[i]) ensures i > 0 && !Blank(init[i - 1]) {
        assert Blank(lines[i]);
      }
    }
  }

  lemma {:induction false} KeptShrinks(lines: seq<string>)
    ensures |Kept(lines)| <= |lines|
    ensures Kept(lines) == lines <==>
            (lines != [] ==> !Blank(lines[|lines| - 1]) && TrimEnd(lines[|lines| - 1]) == lines[|lines| - 1])
    decreases |lines|
  {
    if lines != [] {
      KeptShrinks(lines[..|lines| - 1]);
    }
  }

  /**
   Removing keeps the bytes outside the markers, up to a final newline, if and only if
   there is no block, or the lines outside it are neat and none of them ends in CR LF.
   */
  lemma RemoveKeepsBytesExactly(text: string)
    ensures WithNewline(Removed(text)) == OwnBefore(text) + OwnAfter(text)
            <==> FindBlock(LinesOf(text)).None? || (Neat(Outside(LinesOf(text))) && !CrLfOutside(text))
  {
    JoinOfConcat(Before(RawLines(text)), After(RawLines(text)));
    RawBlock(text);
    if FindBlock(LinesOf(text)).None? {
      JoinOfRaw(text);
      assert Outside(RawLines(text)) == RawLines(text);
    } else {
      RemovedText(text);
      RawHaveNoNewlines(text);
      JoinTellsLines(Kept(Tidy(Outside(LinesOf(text)))), Outside(RawLines(text)));
      OutsideAgrees(text);
      KeptIsRaw(Outside(LinesOf(text)), Outside(RawLines(text)));
    }
  }

  /** Joining the raw lines gives the text back with a final newline. */
  lemma JoinOfRaw(text: string)
    ensures JoinLines(RawLines(text)) == WithNewline(text)
  {
    var c := CutLines(text);
    JoinOfCut(text);
    LinesJoined(c.lines, c.tail);
    assert c.tail == "" <==> text == "" || text[|text| - 1] == '\n';
  }

  lemma RawHaveNoNewlines(text: string)
    ensures NoNewlines(RawLines(text)) && NoNewlines(Outside(RawLines(text)))
  {
    CutHasNoNewlines(text);
  }

  lemma JoinTellsLines(x: seq<string>, y: seq<string>)
    requires NoNewlines(x) && NoNewlines(y)
    ensures JoinLines(x) == JoinLines(y) <==> x == y
  {
    RawLinesOfJoined(x);
    RawLinesOfJoined(y);
  }

  /** The text that removing a block leaves is that of the kept lines. */
  lemma RemovedText(text: string)
    requires FindBlock(LinesOf(text)).Some?
    ensures NoNewlines(Kept(Tidy(Outside(LinesOf(text)))))
    ensures WithNewline(Removed(text)) == JoinLines(Kept(Tidy(Outside(LinesOf(text)))))
  {
    var outside := Outside(LinesOf(text));
    LinesHaveNoNewlines(text);
    TidiedText(outside);
  }

  /** The lines outside lose carriage returns at most, and none exactly without CR LF there. */
  lemma OutsideAgrees(text: string)
    ensures LosesReturns(Outside(RawLines(text)), Outside(LinesOf(text)))
    ensures Outside(LinesOf(text)) == Outside(RawLines(text)) <==> !CrLfOutside(text)
  {
    var lines, raw := LinesOf(text), RawLines(text);
    RawBlock(text);
    RawAndStripped(text);
    LosesReturnsAround(raw, lines, FindBlock(lines));
    LosesReturnsJoins(Before(raw), After(raw), Before(lines), After(lines));
    KeptLinesExactly(text);
    SameParts(Before(lines), After(lines), Before(raw), After(raw));
  }

  lemma LosesReturnsJoins(a: seq<string>, b: seq<string>, c: seq<string>, d: seq<string>)
    requires LosesReturns(a, c) && LosesReturns(b, d)
    ensures LosesReturns(a + b, c + d)
  {
  }

  lemma SameParts(a: seq<string>, b: seq<string>, c: seq<string>, d: seq<string>)
    requires |a| == |c|
    ensures a + b == c + d <==> a == c && b == d
  {
    if a + b == c + d {
      assert a == (a + b)[..|a|] && c == (c + d)[..|c|];
      assert b == (a + b)[|a|..] && d == (c + d)[|c|..];
    }
  }

  /** Tidying and trimming give the raw lines exactly when the lines are those and neat. */
  lemma KeptIsRaw(lines: seq<string>, raw: seq<string>)
    requires LosesReturns(raw, lines)
    ensures Kept(Tidy(lines)) == raw <==> Neat(lines) && lines == raw
  {
    TidyShrinks(lines);
    KeptShrinks(Tidy(lines));
    KeptLength(Tidy(lines));
    if Kept(Tidy(lines)) == raw && lines != [] {
      var n := |lines| - 1;
      TrimEndOfSpace(lines[n]);
      assert raw[n] == TrimEnd(lines[n]);
      assert lines[n] == raw[n];
      assert lines[..n] == raw[..n];
      assert lines == lines[..n] + [lines[n]] && raw == raw[..n] + [raw[n]];
    }
  }

  lemma {:induction false} KeptLength(lines: seq<string>)
    ensures lines != [] && |Kept(lines)| == |lines| ==> !Blank(lines[|lines| - 1])
    decreases |lines|
  {
    if lines != [] {
      KeptShrinks(lines[..|lines| - 1]);
    }
  }

  lemma TidyGrows(init: seq<string>, line: string)
    ensures var before := Tidy(init);
            Tidy(init + [line])
            == if Blank(line) && (before == [] || Blank(before[|before| - 1])) then before else before + [line]
  {
    assert (init + [line])[..|init|] == init;
  }

  lemma SomeLines()
    ensures Blank("") && !Blank("a") && !Blank("b") && TrimEnd("b") == "b" && Trim("a") == "a" && Trim("b") == "b"
  {
    assert !IsSpace('a') && !IsSpace('b');
  }

  lemma TidiedBlanks()
    ensures Kept(Tidy(["a", "", "", "b"])) == ["a", "", "b"]
  {
    SomeLines();
    TidyGrows([], "a");
    assert [] + ["a"] == ["a"];
    TidyGrows(["a"], "");
    assert Tidy(["a"] + [""]) == ["a", ""] && ["a"] + [""] == ["a", ""];
    TidyGrows(["a", ""], "");
    assert Tidy(["a", ""] + [""]) == ["a", ""] && ["a", ""] + [""] == ["a", "", ""];
    TidyGrows(["a", "", ""], "b");
    assert ["a", "", ""] + ["b"] == ["a", "", "", "b"];
    assert Tidy(["a", "", "", "b"]) == ["a", "", "b"];
  }

  /** An rc text with two blank lines between the user's own lines, and the block at its end. */
  function SpacedText(block: seq<string>): string {
    JoinLines(["a", "", "", "b"] + block + [])
  }

  /** Removing the block collapses those blank lines, although they are not where it was. */
  lemma RemoveCollapsesUserBlanks(block: seq<string>)
    requires ValidBlock(block)
    ensures var lines := LinesOf(SpacedText(block));
            && FindBlock(lines).Some? && Outside(lines) == ["a", "", "", "b"]
            && LinesOf(Removed(SpacedText(block))) == ["a", "", "b"]
  {
    var own := ["a", "", "", "b"];
    SpacedLines(own, block);
    TidiedBlanks();
    RemovedGives(SpacedText(block), own, ["a", "", "b"]);
  }

  lemma RemovedGives(text: string, own: seq<string>, left: seq<string>)
    requires Outside(LinesOf(text)) == own && Kept(Tidy(own)) == left && NoReturns(left)
    ensures LinesOf(Closed(Tidy(Outside(LinesOf(text))))) == left
  {
    RemovedLines(text, Tidy(own));
    StripClean(left);
  }

  lemma SpacedLines(own: seq<string>, block: seq<string>)
    requires ValidBlock(block) && own == ["a", "", "", "b"]
    ensures var lines := LinesOf(SpacedText(block));
            FindBlock(lines).Some? && Outside(lines) == own
  {
    InstalledLines(own, block, []);
    StripClean(own);
    StripClean([]);
    NoMarkInOwn(own);
    OutsideOfBlock(own, block, LinesOf(SpacedText(block)));
  }

  lemma OutsideOfBlock(own: seq<string>, block: seq<string>, lines: seq<string>)
    requires ValidBlock(block) && lines == own + block + []
    requires forall k :: 0 <= k < |own| ==> Trim(own[k]) != PROMPT_BEGIN
    ensures FindBlock(lines).Some? && Outside(lines) == own
  {
    BlockIsFound(own, block, []);
    assert own + [] == own;
  }

  lemma NoMarkInOwn(own: seq<string>)
    requires own == ["a", "", "", "b"]
    ensures forall k :: 0 <= k < |own| ==> Trim(own[k]) != PROMPT_BEGIN
  {
    SomeLines();
  }
}
