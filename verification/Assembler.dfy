/**
 `JsonAssembler`: lines are buffered until braces and brackets balance outside
 strings. Reassembly undoes splitting, and a whole record always gets through.
 */
module Assembler {
  import opened Basics
  import opened Text

  const MAX_ASSEMBLY_BYTES := 32 * 1024 * 1024

  datatype Balance = Balance(braces: int, brackets: int, inString: bool, escaped: bool)
  {
    predicate Complete() {
      !inString && !escaped && braces == 0 && brackets == 0
    }
  }

  const LEVEL := Balance(0, 0, false, false)

  /** One character of `update_balance`. */
  function Step(b: Balance, c: char): Balance {
    if b.inString then
      if b.escaped then b.(escaped := false)
      else if c == '\\' then b.(escaped := true)
      else if c == '"' then b.(inString := false)
      else b
    else if c == '"' then b.(inString := true)
    else if c == '{' then b.(braces := b.braces + 1)
    else if c == '}' then b.(braces := b.braces - 1)
    else if c == '[' then b.(brackets := b.brackets + 1)
    else if c == ']' then b.(brackets := b.brackets - 1)
    else b
  }

  function Scan(b: Balance, text: string): Balance {
    if text == "" then b else Step(Scan(b, text[..|text| - 1]), text[|text| - 1])
  }

  /** `is_whole_record`. */
  predicate WholeRecord(line: string) {
    line != "" && line[0] == '{' && Scan(LEVEL, line).Complete()
  }

  /** The assembler's state as a value. */
  datatype Asm = Asm(buffer: string, balance: Balance)
  {
    predicate Valid() {
      buffer == "" ==> balance == LEVEL
    }
  }

  const EMPTY := Asm("", LEVEL)

  /** What one line produced: the length of a discarded prefix, and a complete text to parse. */
  datatype Fed = Fed(discarded: Option<nat>, text: Option<string>)

  predicate Discards(a: Asm, line: string) {
    a.buffer != "" && (ByteLen(a.buffer) > MAX_ASSEMBLY_BYTES || WholeRecord(line))
  }

  /** The effect of `feed`, as a function. */
  function Feed(a: Asm, line: string): (Asm, Fed) {
    if Trim(line) == "" && a.buffer == "" then (a, Fed(None, None))
    else
      var discarded := if Discards(a, line) then Some(ByteLen(a.buffer)) else None;
      var kept := if Discards(a, line) then EMPTY else a;
      var buffer := if kept.buffer == "" then line else kept.buffer + "\n" + line;
      var balance := Scan(kept.balance, line);
      if balance.Complete() then (EMPTY, Fed(discarded, Some(Trim(buffer))))
      else (Asm(buffer, balance), Fed(discarded, None))
  }

  /** The object, with the fields of the source. */
  class JsonAssembler {
    var buffer: string
    var braces: int
    var brackets: int
    var inString: bool
    var escaped: bool

    function State(): Asm
      reads this
    {
      Asm(buffer, Balance(braces, brackets, inString, escaped))
    }

    constructor ()
      ensures State() == EMPTY
    {
      buffer, braces, brackets, inString, escaped := "", 0, 0, false, false;
    }

    method Clear()
      modifies this
      ensures State() == EMPTY
    {
      buffer, braces, brackets, inString, escaped := "", 0, 0, false, false;
    }

    method UpdateBalance(text: string)
      modifies this`braces, this`brackets, this`inString, this`escaped
      ensures State() == Asm(old(buffer), Scan(old(State()).balance, text))
    {
      ghost var start := State().balance;
      for i := 0 to |text|
        invariant State().balance == Scan(start, text[..i])
      {
        assert text[..i + 1][..i] == text[..i];
        var ch := text[i];
        if inString {
          if escaped {
            escaped := false;
          } else if ch == '\\' {
            escaped := true;
          } else if ch == '"' {
            inString := false;
          }
        } else {
          match ch
          case '"' => inString := true;
          case '{' => braces := braces + 1;
          case '}' => braces := braces - 1;
          case '[' => brackets := brackets + 1;
          case ']' => brackets := brackets - 1;
          case _ =>
        }
      }
      assert text[..|text|] == text;
    }

    method FeedLine(line: string) returns (fed: Fed)
      modifies this
      ensures (State(), fed) == Feed(old(State()), line)
    {
      fed := Fed(None, None);
      if Trim(line) == "" && buffer == "" { return; }
      if buffer != "" && (ByteLen(buffer) > MAX_ASSEMBLY_BYTES || WholeRecord(line)) {
        fed := fed.(discarded := Some(ByteLen(buffer)));
        Clear();
      }
      if buffer != "" { buffer := buffer + "\n"; }
      assert "" + line == line;
      buffer := buffer + line;
      UpdateBalance(line);
      if !inString && !escaped && braces == 0 && brackets == 0 {
        var text := buffer;
        Clear();
        fed := fed.(text := Some(Trim(text)));
      }
    }
  }

  // ---- JSON object texts -------------------------------------------------------

  /**
   Text as the balance sees it: plain runs (white space, separators, numbers,
   literals), strings, and nested braces and brackets. Every JSON text has this
   shape; so does much that is not JSON.
   */
  datatype Node = Plain(text: string) | Str(chars: seq<StrChar>) | Braced(body: seq<Node>) | Bracketed(body: seq<Node>)

  datatype StrChar = Bare(c: char) | Escaped(c: char)

  predicate Structural(c: char) {
    c == '"' || c == '{' || c == '}' || c == '[' || c == ']'
  }

  /** A string character: no raw newline, no bare quote or backslash. */
  predicate StrCharOk(x: StrChar) {
    x.c != '\n' && (x.Bare? ==> x.c != '"' && x.c != '\\')
  }

  predicate WellFormed(n: Node) {
    match n
    case Plain(text) => forall c :: c in text ==> !Structural(c)
    case Str(chars) => forall x :: x in chars ==> StrCharOk(x)
    case Braced(body) => forall m :: m in body ==> WellFormed(m)
    case Bracketed(body) => forall m :: m in body ==> WellFormed(m)
  }

  function CharText(x: StrChar): string {
    if x.Bare? then [x.c] else ['\\', x.c]
  }

  function CharsText(chars: seq<StrChar>): string {
    if chars == [] then "" else CharText(chars[0]) + CharsText(chars[1..])
  }

  function NodeText(n: Node): string
    decreases n, 0
  {
    match n
    case Plain(text) => text
    case Str(chars) => "\"" + CharsText(chars) + "\""
    case Braced(body) => "{" + BodyText(body) + "}"
    case Bracketed(body) => "[" + BodyText(body) + "]"
  }

  function BodyText(body: seq<Node>): string
    decreases body, 1
  {
    if body == [] then "" else NodeText(body[0]) + BodyText(body[1..])
  }

  /** The text of a body is the texts of its parts, one after the other. */
  lemma {:induction false} BodyTextJoins(x: seq<Node>, y: seq<Node>)
    ensures BodyText(x + y) == BodyText(x) + BodyText(y)
    ensures |x| == 1 ==> BodyText(x) == NodeText(x[0])
    decreases |x|
  {
    if x == [] {
      assert x + y == y;
    } else {
      BodyTextJoins(x[1..], y);
      assert (x + y)[1..] == x[1..] + y;
    }
  }

  lemma {:induction false} CharsTextJoins(x: seq<StrChar>, y: seq<StrChar>)
    ensures CharsText(x + y) == CharsText(x) + CharsText(y)
    ensures |x| == 1 ==> CharsText(x) == CharText(x[0])
    decreases |x|
  {
    if x == [] {
      assert x + y == y;
    } else {
      CharsTextJoins(x[1..], y);
      assert (x + y)[1..] == x[1..] + y;
    }
  }

  /** At least as many braces and brackets are open. */
  predicate Deeper(b: Balance, x: Balance) {
    x.braces >= b.braces && x.brackets >= b.brackets
  }

  /** Scanning `t` from `b` comes back to `b`, never closes more than it opened, and meets no newline in a string. */
  ghost predicate Tame(b: Balance, t: string) {
    && Scan(b, t) == b
    && (forall k :: 0 <= k <= |t| ==> Deeper(b, Scan(b, t[..k])))
    && (forall k :: 0 <= k < |t| && t[k] == '\n' ==> !Scan(b, t[..k]).inString)
  }

  lemma {:induction false} ScanConcat(b: Balance, s: string, t: string)
    ensures Scan(b, s + t) == Scan(Scan(b, s), t)
    decreases |t|
  {
    if t == "" {
      assert s + t == s;
    } else {
      ScanConcat(b, s, t[..|t| - 1]);
      assert (s + t)[..|s + t| - 1] == s + t[..|t| - 1];
    }
  }

  lemma TameConcat(b: Balance, s: string, t: string)
    requires Tame(b, s) && Tame(b, t)
    ensures Tame(b, s + t)
  {
    ScanConcat(b, s, t);
    forall k | 0 <= k <= |s + t|
      ensures Deeper(b, Scan(b, (s + t)[..k]))
      ensures k < |s + t| && (s + t)[k] == '\n' ==> !Scan(b, (s + t)[..k]).inString
    {
      if k <= |s| {
        assert (s + t)[..k] == s[..k];
      } else {
        assert (s + t)[..k] == s + t[..k - |s|];
        ScanConcat(b, s, t[..k - |s|]);
      }
      assert k == |s| ==> s[..k] == s;
    }
  }

  /** Wrapping a tame text in one opening and one closing character. */
  lemma TameWrapped(b: Balance, inner: Balance, open: char, t: string, close: char)
    requires Step(b, open) == inner && Step(inner, close) == b && !b.inString && open != '\n' && close != '\n'
    requires Deeper(b, inner) && Tame(inner, t)
    ensures Tame(b, [open] + t + [close])
    ensures forall k :: 0 < k < |t| + 2 ==> Deeper(inner, Scan(b, ([open] + t + [close])[..k]))
  {
    forall k: nat | k <= |t| + 2 ensures WrappedOk(b, inner, [open] + t + [close], k) {
      WrappedAt(b, inner, open, t, close, k);
    }
    WrappedEnd(b, inner, open, t, close);
    TameFrom(b, inner, [open] + t + [close]);
  }

  /** What holds of the text `w` at position `k`. */
  ghost predicate WrappedOk(b: Balance, inner: Balance, w: string, k: nat)
    requires k <= |w|
  {
    && Deeper(b, Scan(b, w[..k]))
    && (0 < k < |w| ==> Deeper(inner, Scan(b, w[..k])))
    && (k < |w| && w[k] == '\n' ==> !Scan(b, w[..k]).inString)
  }

  lemma TameFrom(b: Balance, inner: Balance, w: string)
    requires (forall k: nat :: k <= |w| ==> WrappedOk(b, inner, w, k)) && Scan(b, w) == b
    ensures Tame(b, w)
    ensures forall k :: 0 < k < |w| ==> Deeper(inner, Scan(b, w[..k]))
  {
    forall k | 0 <= k <= |w|
      ensures Deeper(b, Scan(b, w[..k]))
      ensures 0 < k < |w| ==> Deeper(inner, Scan(b, w[..k]))
      ensures k < |w| && w[k] == '\n' ==> !Scan(b, w[..k]).inString
    {
      assert WrappedOk(b, inner, w, k);
    }
  }

  lemma WrappedAt(b: Balance, inner: Balance, open: char, t: string, close: char, k: nat)
    requires Step(b, open) == inner && Step(inner, close) == b && !b.inString && open != '\n' && close != '\n'
    requires Deeper(b, inner) && Tame(inner, t) && k <= |t| + 2
    ensures WrappedOk(b, inner, [open] + t + [close], k)
  {
    var w := [open] + t + [close];
    if k == 0 {
      assert w[..0] == "";
    } else if k == |w| {
      WrappedEnd(b, inner, open, t, close);
      assert w[..k] == w;
    } else {
      WrappedPrefix(b, inner, open, t, close, k);
      assert k <= |t| ==> w[k] == t[k - 1];
    }
  }

  lemma WrappedEnd(b: Balance, inner: Balance, open: char, t: string, close: char)
    requires Step(b, open) == inner && Step(inner, close) == b && Tame(inner, t)
    ensures Scan(b, [open] + t + [close]) == b
  {
    var w := [open] + t + [close];
    WrappedPrefix(b, inner, open, t, close, |t| + 1);
    assert w[..|w| - 1] == w[..|t| + 1] && t[..|t|] == t;
  }

  lemma WrappedPrefix(b: Balance, inner: Balance, open: char, t: string, close: char, k: nat)
    requires Step(b, open) == inner && 0 < k <= |t| + 1
    ensures Scan(b, ([open] + t + [close])[..k]) == Scan(inner, t[..k - 1])
  {
    assert Scan(b, [open]) == inner by { assert [open][..0] == ""; }
    assert ([open] + t + [close])[..k] == [open] + t[..k - 1];
    ScanConcat(b, [open], t[..k - 1]);
  }

  lemma {:induction false} PlainTame(b: Balance, text: string)
    requires !b.inString && forall c :: c in text ==> !Structural(c)
    ensures forall k :: 0 <= k <= |text| ==> Scan(b, text[..k]) == b
    decreases |text|
  {
    if text != "" {
      var init := text[..|text| - 1];
      PlainTame(b, init);
      assert text[..|text|] == text;
      forall k | 0 <= k <= |text| ensures Scan(b, text[..k]) == b {
        if k < |text| {
          assert text[..k] == init[..k];
        } else {
          assert init[..|init|] == init;
          assert text[|text| - 1] in text;
        }
      }
    } else {
      assert text[..0] == "";
    }
  }

  lemma CharTame(b: Balance, x: StrChar)
    requires b.inString && !b.escaped && StrCharOk(x)
    ensures Tame(b, CharText(x))
  {
    var t := CharText(x);
    assert t[..0] == "" && t[..|t|] == t;
    if x.Escaped? {
      assert t[..1] == "\\" && t[..1][..0] == "";
      assert Scan(b, t[..1]) == b.(escaped := true);
      assert t[..|t| - 1] == t[..1];
    }
  }

  lemma {:induction false} CharsTame(b: Balance, chars: seq<StrChar>)
    requires b.inString && !b.escaped && forall x :: x in chars ==> StrCharOk(x)
    ensures Tame(b, CharsText(chars))
    decreases |chars|
  {
    if chars != [] {
      CharTame(b, chars[0]);
      CharsTame(b, chars[1..]);
      TameConcat(b, CharText(chars[0]), CharsText(chars[1..]));
    }
  }

  lemma {:induction false} NodeTame(b: Balance, n: Node)
    requires WellFormed(n) && !b.inString && !b.escaped
    ensures Tame(b, NodeText(n))
    decreases n, 0
  {
    match n
    case Plain(text) =>
      PlainTame(b, text);
      assert text[..|text|] == text;
    case Str(chars) =>
      var inner := b.(inString := true);
      CharsTame(inner, chars);
      TameWrapped(b, inner, '"', CharsText(chars), '"');
    case Braced(body) =>
      var inner := b.(braces := b.braces + 1);
      BodyTame(inner, body);
      TameWrapped(b, inner, '{', BodyText(body), '}');
    case Bracketed(body) =>
      var inner := b.(brackets := b.brackets + 1);
      BodyTame(inner, body);
      TameWrapped(b, inner, '[', BodyText(body), ']');
  }

  lemma {:induction false} BodyTame(b: Balance, body: seq<Node>)
    requires (forall m :: m in body ==> WellFormed(m)) && !b.inString && !b.escaped
    ensures Tame(b, BodyText(body))
    decreases body, 1
  {
    if body != [] {
      NodeTame(b, body[0]);
      BodyTame(b, body[1..]);
      TameConcat(b, NodeText(body[0]), BodyText(body[1..]));
    }
  }

  // ---- Reassembly undoes splitting -----------------------------------------------

  /** Feeding a sequence of lines: the final state and what each line produced. */
  function FeedAll(a: Asm, lines: seq<string>): (Asm, seq<Fed>) {
    if lines == [] then (a, [])
    else
      var (before, produced) := FeedAll(a, lines[..|lines| - 1]);
      var (after, fed) := Feed(before, lines[|lines| - 1]);
      (after, produced + [fed])
  }

  ghost predicate Silent(produced: seq<Fed>) {
    forall k :: 0 <= k < |produced| ==> produced[k] == Fed(None, None)
  }

  /** Nothing before the last line, and the whole text at it. */
  ghost predicate Reassembles(lines: seq<string>, text: string) {
    var (after, produced) := FeedAll(EMPTY, lines);
    && |produced| == |lines| > 0 && after == EMPTY
    && Silent(produced[..|lines| - 1]) && produced[|lines| - 1] == Fed(None, Some(text))
  }

  /** `lines` are the pieces of one object or array text, within the assembly limit. */
  ghost predicate Pieces(lines: seq<string>, root: Node) {
    && lines != [] && WellFormed(root) && (root.Braced? || root.Bracketed?) && Join(lines) == NodeText(root)
    && ByteLen(Join(lines)) <= MAX_ASSEMBLY_BYTES
  }

  /** Before the last piece, the text is open and outside strings. */
  lemma OpenPrefix(lines: seq<string>, root: Node, i: nat)
    requires Pieces(lines, root) && 0 < i < |lines|
    ensures var p := Join(lines[..i]);
            && p != "" && ByteLen(p) <= MAX_ASSEMBLY_BYTES
            && !Scan(LEVEL, p).Complete() && !Scan(LEVEL, p).inString
  {
    var t, p := Join(lines), Join(lines[..i]);
    JoinPrefix(lines, i);
    assert t[..|p|] == p;
    JoinPrefix(lines, 1);
    assert Join(lines[..1]) == lines[0];
    RootStaysOpen(root, |p|);
  }

  /** An object or array is open until its last character, and a newline in it is outside strings. */
  lemma RootStaysOpen(root: Node, k: nat)
    requires WellFormed(root) && (root.Braced? || root.Bracketed?) && 0 < k < |NodeText(root)|
    ensures !Scan(LEVEL, NodeText(root)[..k]).Complete()
    ensures NodeText(root)[k] == '\n' ==> !Scan(LEVEL, NodeText(root)[..k]).inString
  {
    var inner := if root.Braced? then Balance(1, 0, false, false) else Balance(0, 1, false, false);
    BodyTame(inner, root.body);
    if root.Braced? {
      TameWrapped(LEVEL, inner, '{', BodyText(root.body), '}');
    } else {
      TameWrapped(LEVEL, inner, '[', BodyText(root.body), ']');
    }
  }

  lemma FirstLineOpens(lines: seq<string>, root: Node)
    requires Pieces(lines, root)
    ensures lines[0] != "" && Trim(lines[0]) != ""
  {
    JoinPrefix(lines, 1);
    assert Join(lines[..1]) == lines[0];
    assert Join(lines)[0] == if root.Braced? then '{' else '[';
    TrimEndKeepsHead(lines[0]);
  }

  lemma {:induction false} TrimEndKeepsHead(s: string)
    requires s != "" && !IsSpace(s[0])
    ensures TrimEnd(s) != ""
    decreases |s|
  {
    if IsSpace(s[|s| - 1]) { TrimEndKeepsHead(s[..|s| - 1]); }
  }

  /** After the first `i` pieces nothing has come out and the buffer is their join. */
  lemma {:induction false} Accumulates(lines: seq<string>, root: Node, i: nat)
    requires Pieces(lines, root) && 0 < i < |lines|
    requires forall j :: 1 <= j < i ==> !WholeRecord(lines[j])
    ensures FeedAll(EMPTY, lines[..i]).0 == Asm(Join(lines[..i]), Scan(LEVEL, Join(lines[..i])))
    ensures |FeedAll(EMPTY, lines[..i]).1| == i && Silent(FeedAll(EMPTY, lines[..i]).1)
    decreases i
  {
    OpenPrefix(lines, root, i);
    assert lines[..i][..i - 1] == lines[..i - 1];
    if i == 1 {
      FirstLineOpens(lines, root);
      assert lines[..0] == [] && Join(lines[..1]) == lines[0];
    } else {
      Accumulates(lines, root, i - 1);
      OpenPrefix(lines, root, i - 1);
      BufferedLine(Join(lines[..i - 1]), lines[i - 1]);
      assert lines[..i][i - 1] == lines[i - 1];
    }
  }

  /** Joining with a newline outside a string does not change the balance. */
  lemma NewlineIsNeutral(p: string, line: string)
    requires !Scan(LEVEL, p).inString
    ensures Scan(LEVEL, p + "\n" + line) == Scan(Scan(LEVEL, p), line)
  {
    ScanConcat(LEVEL, p + "\n", line);
    assert (p + "\n")[..|p|] == p;
  }

  /** A line that leaves the text open is buffered and yields nothing. */
  lemma BufferedLine(p: string, line: string)
    requires p != "" && ByteLen(p) <= MAX_ASSEMBLY_BYTES && !Scan(LEVEL, p).inString && !WholeRecord(line)
    requires !Scan(LEVEL, p + "\n" + line).Complete()
    ensures Feed(Asm(p, Scan(LEVEL, p)), line)
            == (Asm(p + "\n" + line, Scan(LEVEL, p + "\n" + line)), Fed(None, None))
  {
    NewlineIsNeutral(p, line);
  }

  /** An object or array text is balanced and already trimmed. */
  lemma RootTextComplete(root: Node)
    requires WellFormed(root) && (root.Braced? || root.Bracketed?)
    ensures Scan(LEVEL, NodeText(root)) == LEVEL && Trim(NodeText(root)) == NodeText(root)
  {
    NodeTame(LEVEL, root);
  }

  /** The line that completes a buffered text. */
  lemma CompletingLine(p: string, line: string)
    requires p != "" && ByteLen(p) <= MAX_ASSEMBLY_BYTES && !Scan(LEVEL, p).inString && !WholeRecord(line)
    requires Scan(LEVEL, p + "\n" + line) == LEVEL
    ensures Feed(Asm(p, Scan(LEVEL, p)), line) == (EMPTY, Fed(None, Some(Trim(p + "\n" + line))))
  {
    NewlineIsNeutral(p, line);
  }

  /** The last piece completes the text. */
  lemma LastPieceCompletes(lines: seq<string>, root: Node)
    requires Pieces(lines, root)
    requires forall j :: 1 <= j < |lines| ==> !WholeRecord(lines[j])
    ensures Reassembles(lines, Join(lines))
  {
    var n := |lines|;
    RootTextComplete(root);
    if n == 1 {
      FirstLineOpens(lines, root);
      assert lines[..0] == [];
    } else {
      Accumulates(lines, root, n - 1);
      OpenPrefix(lines, root, n - 1);
      CompletingLine(Join(lines[..n - 1]), lines[n - 1]);
    }
    assert FeedAll(EMPTY, lines).1[..n - 1] == FeedAll(EMPTY, lines[..n - 1]).1;
  }

  /** A whole record among the continuation lines discards what was buffered. */
  lemma {:induction false} WholeRecordInterrupts(lines: seq<string>, root: Node, i: nat)
    requires Pieces(lines, root) && 0 < i < |lines| && WholeRecord(lines[i])
    requires forall j :: 1 <= j < i ==> !WholeRecord(lines[j])
    ensures !Reassembles(lines, Join(lines))
  {
    Accumulates(lines, root, i);
    OpenPrefix(lines, root, i);
    ProducedBy(lines, i);
    assert FeedAll(EMPTY, lines).1[i].discarded.Some?;
  }

  lemma ProducedBy(lines: seq<string>, i: nat)
    requires i < |lines|
    ensures |FeedAll(EMPTY, lines).1| == |lines|
    ensures FeedAll(EMPTY, lines).1[i] == Feed(FeedAll(EMPTY, lines[..i]).0, lines[i]).1
  {
    assert lines[..i + 1][..i] == lines[..i];
    ProducedIsPrefix(EMPTY, lines, i + 1);
    ProducedIsPrefix(EMPTY, lines, i);
    assert FeedAll(EMPTY, lines).1[i] == FeedAll(EMPTY, lines[..i + 1]).1[i];
  }

  lemma {:induction false} ProducedIsPrefix(a: Asm, lines: seq<string>, i: nat)
    requires i <= |lines|
    ensures |FeedAll(a, lines).1| == |lines| && |FeedAll(a, lines[..i]).1| == i
    ensures FeedAll(a, lines[..i]).1 <= FeedAll(a, lines).1
    decreases |lines|
  {
    if i == |lines| {
      assert lines[..i] == lines;
      if i > 0 { ProducedIsPrefix(a, lines[..i - 1], i - 1); }
    } else {
      ProducedIsPrefix(a, lines[..|lines| - 1], i);
      assert lines[..|lines| - 1][..i] == lines[..i];
    }
  }

  /**
   Reassembly undoes splitting: the pieces of an object or array text produce nothing until
   the last one, which produces the whole text, if and only if no continuation
   line is by itself a whole record.
   */
  lemma ReassemblyUndoesSplitting(lines: seq<string>, root: Node)
    requires Pieces(lines, root)
    ensures Reassembles(lines, Join(lines)) <==> forall i :: 1 <= i < |lines| ==> !WholeRecord(lines[i])
  {
    if forall i :: 1 <= i < |lines| ==> !WholeRecord(lines[i]) {
      LastPieceCompletes(lines, root);
    } else {
      var i :| 1 <= i < |lines| && WholeRecord(lines[i]);
      while exists j :: 1 <= j < i && WholeRecord(lines[j])
        invariant 1 <= i < |lines| && WholeRecord(lines[i])
        decreases i
      {
        var j :| 1 <= j < i && WholeRecord(lines[j]);
        i := j;
      }
      WholeRecordInterrupts(lines, root, i);
    }
  }

  /** After any lines a whole record comes out as its own text, and the assembler starts over. */
  lemma WholeRecordGetsThrough(lines: seq<string>, line: string)
    requires WholeRecord(line)
    ensures var (a, _) := FeedAll(EMPTY, lines);
            && Feed(a, line).0 == EMPTY && Feed(a, line).1.text == Some(Trim(line))
            && Feed(a, line).1.discarded == if a.buffer == "" then None else Some(ByteLen(a.buffer))
  {
    FeedingKeepsValid(lines);
    WholeRecordRestarts(FeedAll(EMPTY, lines).0, line);
  }

  lemma WholeRecordRestarts(a: Asm, line: string)
    requires a.Valid() && WholeRecord(line)
    ensures Feed(a, line).0 == EMPTY && Feed(a, line).1.text == Some(Trim(line))
    ensures Feed(a, line).1.discarded == if a.buffer == "" then None else Some(ByteLen(a.buffer))
  {
    TrimEndKeepsHead(line);
  }

  lemma {:induction false} FeedingKeepsValid(lines: seq<string>)
    ensures FeedAll(EMPTY, lines).0.Valid()
    decreases |lines|
  {
    if lines != [] {
      FeedingKeepsValid(lines[..|lines| - 1]);
    }
  }

  /**
   One more line never loses anything silently: what was buffered is continued, or comes
   out with the line, or is reported as discarded, and only the last happens to more than
   32 MiB or in front of a whole record. Then the line starts afresh.
   */
  lemma NothingLostSilently(a: Asm, line: string)
    requires a.Valid() && a.buffer != ""
    ensures var (after, fed) := Feed(a, line);
            if ByteLen(a.buffer) > MAX_ASSEMBLY_BYTES || WholeRecord(line)
            then
              && fed.discarded == Some(ByteLen(a.buffer))
              && (if Scan(LEVEL, line).Complete() then after == EMPTY && fed.text == Some(Trim(line))
                  else after.buffer == line && fed.text.None?)
            else
              && fed.discarded.None?
              && (|| (after.buffer == a.buffer + "\n" + line && fed.text.None?)
                  || (after == EMPTY && fed.text == Some(Trim(a.buffer + "\n" + line))))
  {
  }

  /** Lines of at most `n` bytes never fill the buffer beyond 32 MiB and one line more. */
  lemma {:induction false} BufferIsBounded(lines: seq<string>, n: nat)
    requires forall i :: 0 <= i < |lines| ==> ByteLen(lines[i]) <= n
    ensures ByteLen(FeedAll(EMPTY, lines).0.buffer) <= MAX_ASSEMBLY_BYTES + 1 + n
    decreases |lines|
  {
    if lines != [] {
      BufferIsBounded(lines[..|lines| - 1], n);
      FedIsBounded(FeedAll(EMPTY, lines[..|lines| - 1]).0, lines[|lines| - 1], n);
    }
  }

  lemma FedIsBounded(a: Asm, line: string, n: nat)
    requires ByteLen(a.buffer) <= MAX_ASSEMBLY_BYTES + 1 + n && ByteLen(line) <= n
    ensures ByteLen(Feed(a, line).0.buffer) <= MAX_ASSEMBLY_BYTES + 1 + n
  {
    JoinedLength(a.buffer, line);
    assert ByteLen("") == 0;
  }

  lemma JoinedLength(x: string, y: string)
    ensures ByteLen(x + "\n" + y) == ByteLen(x) + 1 + ByteLen(y)
  {
    ByteLenOfConcat(x + "\n", y);
    ByteLenOfConcat(x, "\n");
    assert ByteLen("\n") == 1;
  }
}
