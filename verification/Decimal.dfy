/** Splitting text at a character, and decimal numbers: printing and the integer parsers. */
module Decimal {
  import opened Basics

  // ---- Splitting -------------------------------------------------------------------

  /** `str::split_once`: around the first occurrence. */
  function SplitOnce(s: string, c: char): (r: Option<(string, string)>)
    ensures r.Some? ==> s == r.value.0 + [c] + r.value.1 && c !in r.value.0
    ensures r.None? ==> c !in s
  {
    if s == "" then None
    else if s[0] == c then Some(("", s[1..]))
    else match SplitOnce(s[1..], c)
      case Some((before, after)) => Some(([s[0]] + before, after))
      case None => None
  }

  /** `str::split`: around every occurrence. */
  function Split(s: string, c: char): seq<string>
    decreases |s|
  {
    match SplitOnce(s, c)
    case Some((before, after)) => [before] + Split(after, c)
    case None => [s]
  }

  lemma {:induction false} SplitOnceAt(a: string, c: char, b: string)
    requires c !in a
    ensures SplitOnce(a + [c] + b, c) == Some((a, b))
    decreases |a|
  {
    if a == "" {
      assert a + [c] + b == [c] + b;
    } else {
      SplitOnceAt(a[1..], c, b);
      assert (a + [c] + b)[1..] == a[1..] + [c] + b && [a[0]] + a[1..] == a;
    }
  }

  lemma {:induction false} SplitOnceNone(a: string, c: char)
    requires c !in a
    ensures SplitOnce(a, c) == None && Split(a, c) == [a]
    decreases |a|
  {
    if a != "" {
      SplitOnceNone(a[1..], c);
    }
  }

  lemma SplitThree(x: string, y: string, z: string, c: char)
    requires c !in x && c !in y && c !in z
    ensures Split(x + [c] + (y + [c] + z), c) == [x, y, z]
  {
    SplitOnceAt(x, c, y + [c] + z);
    SplitOnceAt(y, c, z);
    SplitOnceNone(z, c);
  }

  // ---- Decimal numbers ---------------------------------------------------------------

  predicate IsDigit(c: char) {
    '0' <= c <= '9'
  }

  predicate AllDigits(s: string) {
    forall i :: 0 <= i < |s| ==> IsDigit(s[i])
  }

  function Value(s: string): (r: int)
    ensures AllDigits(s) ==> r >= 0
  {
    if s == "" then 0 else 10 * Value(s[..|s| - 1]) + (s[|s| - 1] as int - '0' as int)
  }

  function Show(n: nat): (s: string)
    ensures s != "" && AllDigits(s) && Value(s) == n
  {
    var digit := [('0' as int + n % 10) as char];
    if n < 10 then digit
    else
      var s := Show(n / 10) + digit;
      assert s[..|s| - 1] == Show(n / 10);
      s
  }

  /** `{n:0w}`: at least `w` digits. */
  function Pad(n: nat, w: nat): (s: string)
    ensures s != "" && AllDigits(s) && |s| >= w
  {
    Zeros(w, Show(n))
  }

  function Zeros(w: nat, s: string): (r: string)
    requires s != "" && AllDigits(s)
    ensures r != "" && AllDigits(r) && |r| == Max(w, |s|)
    decreases w - |s|
  {
    if |s| >= w then s else Zeros(w, "0" + s)
  }

  lemma {:induction false} LeadingZero(s: string)
    ensures Value("0" + s) == Value(s)
    decreases |s|
  {
    if s != "" {
      LeadingZero(s[..|s| - 1]);
      assert ("0" + s)[..|s|] == "0" + s[..|s| - 1];
    }
  }

  lemma {:induction false} ZerosValue(w: nat, s: string)
    requires s != "" && AllDigits(s)
    ensures Value(Zeros(w, s)) == Value(s)
    decreases w - |s|
  {
    if |s| < w {
      LeadingZero(s);
      ZerosValue(w, "0" + s);
    }
  }

  /** An unsigned integer of at most `max`: an optional plus sign, then digits. */
  function ParseUnsigned(s: string, max: nat): Option<nat> {
    var body := if s != "" && s[0] == '+' then s[1..] else s;
    if body != "" && AllDigits(body) && Value(body) <= max then Some(Value(body)) else None
  }

  /** A signed 64-bit integer. */
  function ParseSigned(s: string): Option<int> {
    if s != "" && s[0] == '-' then
      var body := s[1..];
      if body != "" && AllDigits(body) && Value(body) <= I64_MAX + 1 then Some(-Value(body)) else None
    else
      match ParseUnsigned(s, I64_MAX)
      case Some(n) => Some(n)
      case None => None
  }

  /** What is printed is parsed back. */
  lemma ParsesPadded(n: nat, w: nat, max: nat)
    requires n <= max
    ensures ParseUnsigned(Pad(n, w), max) == Some(n)
    ensures n <= I64_MAX ==> ParseSigned(Pad(n, w)) == Some(n)
  {
    ZerosValue(w, Show(n));
    assert IsDigit(Pad(n, w)[0]);
    if n <= I64_MAX {
      assert ParseUnsigned(Pad(n, w), I64_MAX) == Some(n);
    }
  }

  /** Signs are read, and a number beyond the range is refused. */
  lemma ParsesSigned(n: nat, w: nat, max: nat)
    ensures ParseUnsigned(Pad(n, w), max) == if n <= max then Some(n) else None
    ensures ParseUnsigned("+" + Pad(n, w), max) == ParseUnsigned(Pad(n, w), max)
    ensures ParseSigned("-" + Pad(n, w)) == if n <= I64_MAX + 1 then Some(-(n as int)) else None
  {
    ZerosValue(w, Show(n));
    var body := Pad(n, w);
    assert IsDigit(body[0]);
    var plus, minus := "+" + body, "-" + body;
    assert plus[1..] == body && minus[1..] == body;
  }

  /** Nothing else is a number: no digits at all, or something among them. */
  lemma NonDigitsRefused(s: string, max: nat)
    requires |s| <= 1 || !AllDigits(s[1..])
    requires s != "" ==> !IsDigit(s[0]) || |s| > 1
    ensures ParseUnsigned(s, max) == None && ParseSigned(s) == None
  {
    if |s| > 1 {
      var i :| 0 <= i < |s[1..]| && !IsDigit(s[1..][i]);
      assert s[i + 1] == s[1..][i];
    }
  }

  lemma NotInDigits(s: string, c: char)
    requires AllDigits(s) && !IsDigit(c)
    ensures c !in s
  {
  }
}
