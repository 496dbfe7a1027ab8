/** The string operations of the source's standard library that the models use. */
module Text {
  /** `char::is_whitespace`. */
  predicate IsSpace(c: char) {
    var n := c as int;
    || 9 <= n <= 13 || n == 32 || n == 0x85 || n == 0xA0 || n == 0x1680 || 0x2000 <= n <= 0x200A
    || n == 0x2028 || n == 0x2029 || n == 0x202F || n == 0x205F || n == 0x3000
  }

  function TrimStart(s: string): string {
    if s != "" && IsSpace(s[0]) then TrimStart(s[1..]) else s
  }

  function TrimEnd(s: string): string {
    if s != "" && IsSpace(s[|s| - 1]) then TrimEnd(s[..|s| - 1]) else s
  }

  function Trim(s: string): string {
    TrimEnd(TrimStart(s))
  }

  /** Lines joined by a newline. */
  function Join(lines: seq<string>): string
    requires lines != []
  {
    if |lines| == 1 then lines[0] else Join(lines[..|lines| - 1]) + "\n" + lines[|lines| - 1]
  }

  /** The length in bytes of one character in UTF-8. */
  function CharBytes(c: char): nat {
    var n := c as int;
    if n < 0x80 then 1 else if n < 0x800 then 2 else if n < 0x10000 then 3 else 4
  }

  /** `str::len`. */
  function ByteLen(s: string): nat {
    if s == "" then 0 else ByteLen(s[..|s| - 1]) + CharBytes(s[|s| - 1])
  }

  lemma {:induction false} ByteLenOfConcat(s: string, t: string)
    ensures ByteLen(s + t) == ByteLen(s) + ByteLen(t)
    decreases |t|
  {
    if t == "" {
      assert s + t == s;
    } else {
      var init := t[..|t| - 1];
      ByteLenOfConcat(s, init);
      assert (s + t)[..|s + t| - 1] == s + init;
    }
  }

  lemma {:induction false} JoinPrefix(lines: seq<string>, i: nat)
    requires 0 < i <= |lines|
    ensures Join(lines[..i]) <= Join(lines)
    ensures i < |lines| ==>
              |Join(lines[..i])| < |Join(lines)| && Join(lines)[|Join(lines[..i])|] == '\n'
    ensures ByteLen(Join(lines[..i])) <= ByteLen(Join(lines))
    decreases |lines|
  {
    if i == |lines| {
      assert lines[..i] == lines;
    } else {
      var init := lines[..|lines| - 1];
      JoinPrefix(init, i);
      assert init[..i] == lines[..i];
      ByteLenOfConcat(Join(init), "\n" + lines[|lines| - 1]);
      assert Join(lines) == Join(init) + ("\n" + lines[|lines| - 1]);
    }
  }
}
