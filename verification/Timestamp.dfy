/** RFC 3339 timestamps: `rfc3339_utc` and `parse_offset_timestamp`. */
module Timestamp {
  import opened Basics
  import opened Text
  import opened Decimal
  import opened Calendar

  datatype Clock = Clock(hh: int, mm: int, ss: int)

  // ---- Printing --------------------------------------------------------------------

  function ShowDate(y: nat, m: nat, d: nat): string {
    Pad(y, 4) + "-" + (Pad(m, 2) + "-" + Pad(d, 2))
  }

  function ShowClock(h: nat, m: nat, s: nat): string {
    Pad(h, 2) + ":" + (Pad(m, 2) + ":" + Pad(s, 2))
  }

  function Rfc3339Utc(ms: nat): string {
    var secs := ms / 1000;
    EpochDate(secs / 86400);
    ShowUtc(CivilFromDays(secs / 86400), secs % 86400, ms % 1000)
  }

  function ShowUtc(x: Date, tod: nat, millis: nat): string
    requires x.year >= 0 && x.month >= 0 && x.day >= 0
  {
    ShowDate(x.year, x.month, x.day) + "T"
    + (ShowClock(tod / 3600, tod % 3600 / 60, tod % 60) + ("." + Pad(millis, 3)) + "Z")
  }

  /** Days from the epoch on fall in years that print and parse. */
  lemma EpochDate(days: nat)
    ensures var x := CivilFromDays(days);
            1970 <= x.year && 1 <= x.month <= 12 && 1 <= x.day <= 31
  {
    DayRoundTrip(days);
    EpochIsZero();
    DaysIncrease(CivilFromDays(days), Date(1970, 1, 1));
  }

  lemma YearBounded(days: nat)
    ensures CivilFromDays(days).year <= 400 * days + 2880000
  {
    var z := days + 719468;
    EraFloors(z, 146097);
    YearContains(z % 146097);
    assert z / 146097 <= days + 5;
    assert z - z / 146097 * 146097 == z % 146097;
  }

  // ---- Parsing ---------------------------------------------------------------------

  function ParseDate(date: string): Option<Date> {
    var parts := Split(date, '-');
    if |parts| != 3 then None
    else
      var y, m, d := ParseSigned(parts[0]), ParseUnsigned(parts[1], U32_MAX), ParseUnsigned(parts[2], U32_MAX);
      if y.Some? && m.Some? && d.Some? && 1 <= m.value <= 12 && 1 <= d.value <= 31
      then Some(Date(y.value, m.value, d.value)) else None
  }

  /** The position of the last plus or minus sign. */
  function LastSign(s: string): (r: Option<nat>)
    ensures r.Some? ==> r.value < |s|
  {
    if s == "" then None
    else if s[|s| - 1] == '+' || s[|s| - 1] == '-' then Some(|s| - 1)
    else LastSign(s[..|s| - 1])
  }

  function SplitOffset(rest: string): (r: Option<(string, string)>)
    ensures r.Some? ==> r.value.1 != ""
  {
    if rest != "" && (rest[|rest| - 1] == 'Z' || rest[|rest| - 1] == 'z') then Some((rest[..|rest| - 1], "Z"))
    else match LastSign(rest)
      case Some(i) => if i == 0 then None else Some((rest[..i], rest[i..]))
      case None => None
  }

  function ParseTime(time: string): Option<Clock> {
    var split := SplitOnce(time, '.');
    var clock := if split.Some? then split.value.0 else time;
    var parts := Split(clock, ':');
    if split.Some? && (split.value.1 == "" || !AllDigits(split.value.1)) then None
    else if |parts| != 3 then None
    else
      var h, m := ParseUnsigned(parts[0], U32_MAX), ParseUnsigned(parts[1], U32_MAX);
      var s := ParseUnsigned(parts[2], U32_MAX);
      if h.Some? && m.Some? && s.Some? && h.value <= 23 && m.value <= 59 && s.value <= 60
      then Some(Clock(h.value, m.value, s.value)) else None
  }

  function OffsetParts(body: string): Option<(int, int)> {
    match SplitOnce(body, ':')
    case Some((hh, mm)) => Both(ParseSigned(hh), ParseSigned(mm))
    case None => if |body| == 4 then Both(ParseSigned(body[..2]), ParseSigned(body[2..])) else None
  }

  function Both(hh: Option<int>, mm: Option<int>): Option<(int, int)> {
    if hh.Some? && mm.Some? && hh.value <= 23 && mm.value <= 59 then Some((hh.value, mm.value)) else None
  }

  function OffsetSeconds(offset: string): Option<int>
    requires offset != ""
  {
    if offset == "Z" || offset == "z" then Some(0)
    else if offset[0] != '+' && offset[0] != '-' then None
    else match OffsetParts(offset[1..])
      case Some((hh, mm)) => Some(if offset[0] == '+' then hh * 3600 + mm * 60 else -(hh * 3600 + mm * 60))
      case None => None
  }

  /** No sign is left in an offset that was split off, so it is less than a day, whatever the text. */
  lemma OffsetIsLessThanADay(rest: string)
    ensures SplitOffset(rest).Some? && OffsetSeconds(SplitOffset(rest).value.1).Some? ==>
              -86400 < OffsetSeconds(SplitOffset(rest).value.1).value < 86400
  {
    if SplitOffset(rest).Some? && SplitOffset(rest).value.1 != "Z" {
      var i := LastSign(rest).value;
      LastSignIsLast(rest);
      var body := rest[i..][1..];
      assert forall k :: 0 <= k < |body| ==> body[k] == rest[i + 1 + k];
      BodyIsShort(body);
    }
  }

  lemma BodyIsShort(body: string)
    requires '-' !in body
    ensures OffsetParts(body).Some? ==> 0 <= OffsetParts(body).value.0 <= 23 && 0 <= OffsetParts(body).value.1 <= 59
  {
    var split := SplitOnce(body, ':');
    if split.Some? {
      var hh, mm := split.value.0, split.value.1;
      assert forall k :: 0 <= k < |hh| ==> hh[k] == body[k];
      assert forall k :: 0 <= k < |mm| ==> mm[k] == body[|hh| + 1 + k];
    }
  }

  lemma {:induction false} LastSignIsLast(s: string)
    ensures LastSign(s).Some? ==> forall k :: LastSign(s).value < k < |s| ==> s[k] != '+' && s[k] != '-'
    decreases |s|
  {
    if s != "" {
      LastSignIsLast(s[..|s| - 1]);
      assert forall k :: 0 <= k < |s| - 1 ==> s[..|s| - 1][k] == s[k];
    }
  }

  /** Seconds since the epoch for a date, a clock time and an offset. */
  function Instant(x: Date, c: Clock, offset: int): int {
    At(DaysFromCivil(x), c, offset)
  }

  function At(days: int, c: Clock, offset: int): int {
    days * 86400 + c.hh * 3600 + c.mm * 60 + c.ss - offset
  }

  /** 64-bit signed arithmetic, wrapping around as a release build does. */
  function Wrap64(x: int): (r: int)
    ensures -(I64_MAX + 1) <= r <= I64_MAX
    ensures -(I64_MAX + 1) <= x <= I64_MAX ==> r == x
  {
    (x + I64_MAX + 1) % (U64_MAX + 1) - I64_MAX - 1
  }

  /** The date, and what follows the separator. */
  function Halves(raw: string): Option<(string, string)> {
    if SplitOnce(raw, 'T').Some? then SplitOnce(raw, 'T') else SplitOnce(raw, 't')
  }

  function ParseOffsetTimestamp(text: string): Option<nat> {
    match Halves(Trim(text))
    case None => None
    case Some((date, rest)) =>
      match SplitOffset(rest)
      case None => None
      case Some((time, offset)) =>
        var x, c, o := ParseDate(date), ParseTime(time), OffsetSeconds(offset);
        if x.Some? && c.Some? && o.Some? then Positive(Wrap64(Instant(x.value, c.value, o.value))) else None
  }

  /** `u64::try_from`. */
  function Positive(x: int): Option<nat> {
    if x >= 0 then Some(x) else None
  }

  // ---- Parsing undoes printing -------------------------------------------------------

  /** A zone as RFC 3339 writes one: `Z`, or a signed number of hours and minutes. */
  datatype Zone = Utc | Offset(east: bool, hh: nat, mm: nat, colon: bool)
  {
    predicate Valid() {
      Offset? ==> hh <= 23 && mm <= 59
    }

    /** Both numbers have two digits. */
    predicate Written() {
      Offset? ==> hh < 100 && mm < 100
    }

    function Sign(): char
      requires Offset?
    {
      if east then '+' else '-'
    }

    function Body(): string
      requires Offset?
    {
      if colon then Pad(hh, 2) + ":" + Pad(mm, 2) else Pad(hh, 2) + Pad(mm, 2)
    }

    function Text(): string {
      if Utc? then "Z" else [Sign()] + Body()
    }

    function Seconds(): int {
      if Utc? then 0 else if east then hh * 3600 + mm * 60 else -(hh * 3600 + mm * 60)
    }
  }

  /** The fields are in the ranges that RFC 3339 gives them, with up to 31 days in every month. */
  predicate DateInRange(m: nat, d: nat) {
    1 <= m <= 12 && 1 <= d <= 31
  }

  predicate ClockInRange(c: Clock) {
    0 <= c.hh <= 23 && 0 <= c.mm <= 59 && 0 <= c.ss <= 60
  }

  lemma DateParses(y: nat, m: nat, d: nat)
    requires y <= I64_MAX && m <= U32_MAX && d <= U32_MAX
    ensures ParseDate(ShowDate(y, m, d)) == if DateInRange(m, d) then Some(Date(y, m, d)) else None
  {
    NotInDigits(Pad(y, 4), '-');
    NotInDigits(Pad(m, 2), '-');
    NotInDigits(Pad(d, 2), '-');
    SplitThree(Pad(y, 4), Pad(m, 2), Pad(d, 2), '-');
    ParsesPadded(y, 4, I64_MAX);
    ParsesPadded(m, 2, U32_MAX);
    ParsesPadded(d, 2, U32_MAX);
  }

  /** `.` and at least one digit, or nothing. */
  predicate Fraction(f: string) {
    f == "" || (|f| > 1 && f[0] == '.' && AllDigits(f[1..]))
  }

  lemma ClockParses(h: nat, m: nat, s: nat, f: string)
    requires h <= U32_MAX && m <= U32_MAX && s <= U32_MAX && Fraction(f)
    ensures ParseTime(ShowClock(h, m, s) + f) == if ClockInRange(Clock(h, m, s)) then Some(Clock(h, m, s)) else None
  {
    ClockText(h, m, s);
    ParsesPadded(h, 2, U32_MAX);
    ParsesPadded(m, 2, U32_MAX);
    ParsesPadded(s, 2, U32_MAX);
    ClockPartsParse(ShowClock(h, m, s), f, [Pad(h, 2), Pad(m, 2), Pad(s, 2)], h, m, s);
  }

  lemma ClockPartsParse(clock: string, f: string, parts: seq<string>, h: nat, m: nat, s: nat)
    requires '.' !in clock && Fraction(f) && Split(clock, ':') == parts && |parts| == 3
    requires ParseUnsigned(parts[0], U32_MAX) == Some(h) && ParseUnsigned(parts[1], U32_MAX) == Some(m)
    requires ParseUnsigned(parts[2], U32_MAX) == Some(s)
    ensures ParseTime(clock + f) == if ClockInRange(Clock(h, m, s)) then Some(Clock(h, m, s)) else None
  {
    FractionSplits(clock, f);
  }

  /** A point that no digits follow, or not only digits, is refused. */
  lemma MalformedFractionRefused(clock: string, rest: string)
    requires '.' !in clock && (rest == "" || !AllDigits(rest))
    ensures ParseTime(clock + ("." + rest)) == None
  {
    PointSplits(clock, rest);
  }

  lemma PointSplits(clock: string, rest: string)
    requires '.' !in clock
    ensures SplitOnce(clock + ("." + rest), '.') == Some((clock, rest))
  {
    SplitOnceAt(clock, '.', rest);
    assert clock + ("." + rest) == clock + "." + rest;
  }

  lemma FractionSplits(clock: string, f: string)
    requires '.' !in clock && Fraction(f)
    ensures f == "" ==> clock + f == clock
    ensures SplitOnce(clock + f, '.') == if f == "" then None else Some((clock, f[1..]))
  {
    if f == "" {
      SplitOnceNone(clock, '.');
      assert clock + f == clock;
    } else {
      HeadAndRest(f);
      PointSplits(clock, f[1..]);
    }
  }

  lemma HeadAndRest(f: string)
    requires f != ""
    ensures f == [f[0]] + f[1..]
  {
  }

  lemma ClockText(h: nat, m: nat, s: nat)
    ensures Split(ShowClock(h, m, s), ':') == [Pad(h, 2), Pad(m, 2), Pad(s, 2)]
    ensures '.' !in ShowClock(h, m, s) && '+' !in ShowClock(h, m, s) && '-' !in ShowClock(h, m, s)
  {
    NotInDigits(Pad(h, 2), ':');
    NotInDigits(Pad(m, 2), ':');
    NotInDigits(Pad(s, 2), ':');
    SplitThree(Pad(h, 2), Pad(m, 2), Pad(s, 2), ':');
  }

  /** No sign after the first character: that is where the offset begins. */
  lemma {:induction false} SignFound(time: string, sign: char, body: string)
    requires sign == '+' || sign == '-'
    requires '+' !in body && '-' !in body
    ensures LastSign(time + ([sign] + body)) == Some(|time|)
    decreases |body|
  {
    var s := time + ([sign] + body);
    if body == "" {
      assert s[|s| - 1] == sign;
    } else {
      SignFound(time, sign, body[..|body| - 1]);
      assert s[|s| - 1] == body[|body| - 1];
      assert s[..|s| - 1] == time + ([sign] + body[..|body| - 1]);
    }
  }

  /** Two digits, for numbers below a hundred. */
  lemma TwoDigits(n: nat)
    requires n < 100
    ensures |Pad(n, 2)| == 2
  {
    assert n >= 10 ==> |Show(n)| == |Show(n / 10)| + 1 && |Show(n / 10)| == 1;
  }

  lemma BodyParses(z: Zone)
    requires z.Offset? && z.Written()
    ensures OffsetParts(z.Body()) == if z.Valid() then Some((z.hh, z.mm)) else None
    ensures '+' !in z.Body() && '-' !in z.Body() && |z.Body()| >= 4
    ensures IsDigit(z.Body()[|z.Body()| - 1])
  {
    var h, m := Pad(z.hh, 2), Pad(z.mm, 2);
    TwoDigits(z.hh);
    TwoDigits(z.mm);
    ParsesPadded(z.hh, 2, I64_MAX);
    ParsesPadded(z.mm, 2, I64_MAX);
    NotInDigits(h, ':');
    NotInDigits(m, ':');
    if z.colon {
      SplitOnceAt(h, ':', m);
    } else {
      SplitOnceNone(h + m, ':');
      assert (h + m)[..2] == h && (h + m)[2..] == m;
    }
  }

  lemma SplitAtSign(time: string, sign: char, body: string)
    requires time != "" && (sign == '+' || sign == '-')
    requires '+' !in body && '-' !in body && body != "" && IsDigit(body[|body| - 1])
    ensures SplitOffset(time + ([sign] + body)) == Some((time, [sign] + body))
  {
    var rest := time + ([sign] + body);
    SignFound(time, sign, body);
    assert rest[|rest| - 1] == body[|body| - 1];
    assert rest[..|time|] == time && rest[|time|..] == [sign] + body;
  }

  lemma SignedSeconds(sign: char, body: string, valid: bool, hh: int, mm: int, seconds: int)
    requires (sign == '+' || sign == '-') && OffsetParts(body) == if valid then Some((hh, mm)) else None
    requires seconds == if sign == '+' then hh * 3600 + mm * 60 else -(hh * 3600 + mm * 60)
    ensures OffsetSeconds([sign] + body) == if valid then Some(seconds) else None
  {
    var offset := [sign] + body;
    assert offset[1..] == body && offset[0] == sign;
  }

  lemma UtcParses(time: string)
    ensures SplitOffset(time + "Z") == Some((time, "Z")) && OffsetSeconds("Z") == Some(0)
  {
    assert (time + "Z")[..|time + "Z"| - 1] == time;
  }

  lemma OffsetZoneParses(time: string, z: Zone)
    requires z.Offset? && z.Written() && time != ""
    ensures SplitOffset(time + ([z.Sign()] + z.Body())) == Some((time, [z.Sign()] + z.Body()))
    ensures OffsetSeconds([z.Sign()] + z.Body()) == if z.Valid() then Some(z.Seconds()) else None
  {
    BodyParses(z);
    SplitAtSign(time, z.Sign(), z.Body());
    SignedSeconds(z.Sign(), z.Body(), z.Valid(), z.hh, z.mm, z.Seconds());
  }

  lemma ZoneParses(time: string, z: Zone)
    requires z.Written() && time != ""
    ensures z.Text() != "" && SplitOffset(time + z.Text()) == Some((time, z.Text()))
    ensures OffsetSeconds(z.Text()) == if z.Valid() then Some(z.Seconds()) else None
  {
    if z.Utc? {
      UtcParses(time);
    } else {
      OffsetZoneParses(time, z);
    }
  }

  lemma NotTrimmed(s: string)
    requires s != "" && !IsSpace(s[0]) && !IsSpace(s[|s| - 1])
    ensures Trim(s) == s
  {
  }

  /** A timestamp of section 5.6 of RFC 3339. */
  function ShowTimestamp(y: nat, m: nat, d: nat, c: Clock, f: string, z: Zone): string
    requires c.hh >= 0 && c.mm >= 0 && c.ss >= 0
  {
    ShowDate(y, m, d) + "T" + (ShowClock(c.hh, c.mm, c.ss) + f + z.Text())
  }

  /**
   Parsing undoes printing: any date, any clock time, any fraction and any offset
   give the instant they name, or an error when it is before the epoch; a field out of
   its range is refused. An instant beyond 64-bit seconds wraps around.
   */
  lemma ParsesEveryTimestamp(y: nat, m: nat, d: nat, c: Clock, f: string, z: Zone, at: int)
    requires y <= I64_MAX && m <= U32_MAX && d <= U32_MAX
    requires 0 <= c.hh <= U32_MAX && 0 <= c.mm <= U32_MAX && 0 <= c.ss <= U32_MAX && Fraction(f) && z.Written()
    requires at == Instant(Date(y, m, d), c, z.Seconds())
    ensures ParseOffsetTimestamp(ShowTimestamp(y, m, d, c, f, z))
            == if DateInRange(m, d) && ClockInRange(c) && z.Valid() then Positive(Wrap64(at)) else None
  {
    var date, time := ShowDate(y, m, d), ShowClock(c.hh, c.mm, c.ss) + f;
    DateStart(y, m, d);
    DateParses(y, m, d);
    ClockParses(c.hh, c.mm, c.ss, f);
    TimeIsSomething(c.hh, c.mm, c.ss, f);
    ZoneEnd(z);
    ZoneParses(time, z);
    PartsParse(date, time, z.Text());
  }

  lemma TimeIsSomething(h: nat, m: nat, s: nat, f: string)
    ensures ShowClock(h, m, s) + f != ""
  {
  }

  lemma PartsParse(date: string, time: string, zone: string)
    requires date != "" && 'T' !in date && !IsSpace(date[0]) && zone != "" && !IsSpace(zone[|zone| - 1])
    requires SplitOffset(time + zone) == Some((time, zone))
    ensures var x, c, o := ParseDate(date), ParseTime(time), OffsetSeconds(zone);
            ParseOffsetTimestamp(date + "T" + (time + zone))
            == if x.Some? && c.Some? && o.Some? then Positive(Wrap64(Instant(x.value, c.value, o.value))) else None
  {
    var text := date + "T" + (time + zone);
    assert text[0] == date[0] && text[|text| - 1] == zone[|zone| - 1];
    NotTrimmed(text);
    SplitOnceAt(date, 'T', time + zone);
  }

  lemma ZoneEnd(z: Zone)
    requires z.Written()
    ensures z.Text() != "" && !IsSpace(z.Text()[|z.Text()| - 1])
  {
    if z.Offset? {
      BodyParses(z);
      assert z.Text()[|z.Text()| - 1] == z.Body()[|z.Body()| - 1];
    }
  }

  lemma DateStart(y: nat, m: nat, d: nat)
    ensures 'T' !in ShowDate(y, m, d) && ShowDate(y, m, d) != "" && !IsSpace(ShowDate(y, m, d)[0])
  {
    assert ShowDate(y, m, d)[0] == Pad(y, 4)[0];
    NotInDigits(Pad(y, 4), 'T');
    NotInDigits(Pad(m, 2), 'T');
    NotInDigits(Pad(d, 2), 'T');
  }

  /** What is printed: fields of fixed width, a year of at least four digits, and three digits of a second. */
  ghost predicate UtcText(text: string, x: Date, tod: nat, millis: nat) {
    exists year, month, day, clock, frac ::
      && text == year + "-" + (month + "-" + day) + "T" + (clock + ("." + frac) + "Z")
      && |year| >= 4 && Reads(year, x.year) && |month| == |day| == 2 && Reads(month, x.month) && Reads(day, x.day)
      && ClockReads(clock, tod) && |frac| == 3 && Reads(frac, millis)
  }

  predicate Reads(digits: string, n: int) {
    AllDigits(digits) && Value(digits) == n
  }

  /** `hh:mm:ss`, as a time of day. */
  predicate ClockReads(clock: string, tod: nat) {
    && |clock| == 8 && clock[2] == clock[5] == ':'
    && Reads(clock[..2], tod / 3600) && Reads(clock[3..5], tod / 60 % 60) && Reads(clock[6..], tod % 60)
  }

  /** What is printed has that shape, and its fields are those of the instant, down to the millisecond. */
  lemma UtcShape(ms: nat)
    requires ms <= U64_MAX
    ensures UtcText(Rfc3339Utc(ms), CivilFromDays(ms / 1000 / 86400), ms / 1000 % 86400, ms % 1000)
  {
    EpochDate(ms / 1000 / 86400);
    ShownShape(CivilFromDays(ms / 1000 / 86400), ms / 1000 % 86400, ms % 1000);
  }

  lemma ShownShape(x: Date, tod: nat, millis: nat)
    requires x.year >= 0 && 0 <= x.month < 100 && 0 <= x.day < 100 && tod < 86400 && millis < 1000
    ensures UtcText(ShowUtc(x, tod, millis), x, tod, millis)
  {
    ZerosValue(4, Show(x.year));
    PaddedTwo(x.month);
    PaddedTwo(x.day);
    ThreeDigits(millis);
    ShownClock(tod);
    PartsShape(Pad(x.year, 4), Pad(x.month, 2), Pad(x.day, 2),
               ShowClock(tod / 3600, tod % 3600 / 60, tod % 60), Pad(millis, 3), x, tod, millis);
  }

  lemma PartsShape(year: string, month: string, day: string, clock: string, frac: string, x: Date, tod: nat,
                   millis: nat)
    requires |year| >= 4 && Reads(year, x.year) && |month| == |day| == 2 && Reads(month, x.month) && Reads(day, x.day)
    requires ClockReads(clock, tod) && |frac| == 3 && Reads(frac, millis)
    ensures UtcText(year + "-" + (month + "-" + day) + "T" + (clock + ("." + frac) + "Z"), x, tod, millis)
  {
  }

  lemma ShownClock(tod: nat)
    requires tod < 86400
    ensures ClockReads(ShowClock(tod / 3600, tod % 3600 / 60, tod % 60), tod)
  {
    MinuteOfHour(tod);
    ClockShape(tod / 3600, tod % 3600 / 60, tod % 60);
  }

  lemma MinuteOfHour(tod: nat)
    ensures tod % 3600 / 60 == tod / 60 % 60
  {
    var h, r := tod / 3600, tod % 3600;
    assert tod / 60 == 60 * h + r / 60;
  }

  lemma PaddedTwo(n: nat)
    requires n < 100
    ensures |Pad(n, 2)| == 2 && Value(Pad(n, 2)) == n
  {
    TwoDigits(n);
    ZerosValue(2, Show(n));
  }

  lemma ThreeDigits(n: nat)
    requires n < 1000
    ensures |Pad(n, 3)| == 3 && Value(Pad(n, 3)) == n
  {
    ZerosValue(3, Show(n));
    assert n >= 10 ==> |Show(n)| == |Show(n / 10)| + 1;
    assert n >= 100 ==> |Show(n / 10)| == |Show(n / 10 / 10)| + 1 && |Show(n / 10 / 10)| == 1;
  }

  lemma ClockShape(h: nat, m: nat, s: nat)
    requires h < 100 && m < 100 && s < 100
    ensures var c := ShowClock(h, m, s);
            && |c| == 8 && c[2] == c[5] == ':'
            && c[..2] == Pad(h, 2) && c[3..5] == Pad(m, 2) && c[6..] == Pad(s, 2)
            && Value(c[..2]) == h && Value(c[3..5]) == m && Value(c[6..]) == s
  {
    PaddedTwo(h);
    PaddedTwo(m);
    PaddedTwo(s);
    ThreeParts(Pad(h, 2), Pad(m, 2), Pad(s, 2));
  }

  lemma ThreeParts(x: string, y: string, z: string)
    requires |x| == |y| == |z| == 2
    ensures var c := x + ":" + (y + ":" + z);
            |c| == 8 && c[2] == c[5] == ':' && c[..2] == x && c[3..5] == y && c[6..] == z
  {
  }

  /** `parse_offset_timestamp(rfc3339_utc(ms))` is `ms / 1000`, for every 64-bit `ms`. */
  lemma UtcRoundTrip(ms: nat)
    requires ms <= U64_MAX
    ensures ParseOffsetTimestamp(Rfc3339Utc(ms)) == Some(ms / 1000)
  {
    var secs := ms / 1000;
    EpochDate(secs / 86400);
    YearBounded(secs / 86400);
    DayRoundTrip(secs / 86400);
    UtcParsesAs(CivilFromDays(secs / 86400), secs, ms % 1000);
  }

  lemma UtcParsesAs(x: Date, secs: nat, millis: nat)
    requires 0 <= x.year <= I64_MAX && 1 <= x.month <= 12 && 1 <= x.day <= 31
    requires DaysFromCivil(x) == secs / 86400 && secs <= I64_MAX
    ensures ParseOffsetTimestamp(ShowUtc(x, secs % 86400, millis)) == Some(secs)
  {
    var tod := secs % 86400;
    var c, f := Clock(tod / 3600, tod % 3600 / 60, tod % 60), "." + Pad(millis, 3);
    assert f[1..] == Pad(millis, 3);
    assert Date(x.year, x.month, x.day) == x;
    SecondsSplit(secs / 86400, tod);
    FitsInWord(secs);
    ParsesEveryTimestamp(x.year, x.month, x.day, c, f, Utc, secs);
    assert ShowUtc(x, tod, millis) == ShowTimestamp(x.year, x.month, x.day, c, f, Utc);
  }

  lemma FitsInWord(secs: nat)
    requires secs <= I64_MAX
    ensures Positive(Wrap64(secs)) == Some(secs)
  {
  }

  lemma SecondsSplit(days: nat, tod: nat)
    ensures At(days, Clock(tod / 3600, tod % 3600 / 60, tod % 60), 0) == days * 86400 + tod
  {
  }

  /**
   Days up to 31 parse in every month. The date that was written is the one its day
   number names if and only if it is valid; otherwise that is a day of the next month.
   */
  lemma ParsedDateIsNamed(y: nat, m: nat, d: nat)
    requires y <= I64_MAX && 1 <= m <= 12 && 1 <= d <= 31
    ensures var x, n := Date(y, m, d), MonthLength(m, Leap(y));
            && ParseDate(ShowDate(y, m, d)) == Some(x)
            && (CivilFromDays(DaysFromCivil(x)) == x <==> ValidDate(x))
            && (!ValidDate(x) ==> CivilFromDays(DaysFromCivil(x)) == Date(y, m + 1, d - n))
  {
    DateParses(y, m, d);
    if ValidDate(Date(y, m, d)) {
      DateRoundTrip(Date(y, m, d));
    } else {
      OverlongDay(Date(y, m, d), Date(y, m + 1, d - MonthLength(m, Leap(y))));
    }
  }

  /** The 31st of February is read as the 3rd of March. */
  lemma OverlongFebruary(c: Clock, f: string, z: Zone)
    requires ClockInRange(c) && Fraction(f) && z.Valid()
    ensures ParseOffsetTimestamp(ShowTimestamp(2025, 2, 31, c, f, z))
            == ParseOffsetTimestamp(ShowTimestamp(2025, 3, 3, c, f, z))
  {
    OverlongDay(Date(2025, 2, 31), Date(2025, 3, 3));
    var at := Instant(Date(2025, 2, 31), c, z.Seconds());
    ParsesEveryTimestamp(2025, 2, 31, c, f, z, at);
    ParsesEveryTimestamp(2025, 3, 3, c, f, z, at);
  }

  /** A timestamp without a zone is refused, whatever else it says and whichever separator it has. */
  lemma NaiveIsRefused(text: string, date: string, rest: string)
    requires Halves(Trim(text)) == Some((date, rest))
    requires forall c :: c in rest ==> c != 'Z' && c != 'z' && c != '+' && c != '-'
    ensures ParseOffsetTimestamp(text) == None
  {
    assert SplitOffset(rest) == None by {
      NoSign(rest);
      assert rest != "" ==> rest[|rest| - 1] in rest;
    }
  }

  lemma {:induction false} NoSign(s: string)
    requires '+' !in s && '-' !in s
    ensures LastSign(s) == None
    decreases |s|
  {
    if s != "" {
      NoSign(s[..|s| - 1]);
    }
  }

  /** Lowercase separators and zones mean the same. */
  lemma LowercaseIsSame(date: string, time: string)
    requires date != "" && 'T' !in date && 't' !in date && !IsSpace(date[0]) && 'T' !in time && 't' !in time
    ensures ParseOffsetTimestamp(date + "t" + (time + "z")) == ParseOffsetTimestamp(date + "T" + (time + "Z"))
  {
    UtcParses(time);
    PartsParse(date, time, "Z");
    var rest := time + "z";
    LowercaseSplits(date, rest);
    assert rest[..|rest| - 1] == time;
    assert SplitOffset(rest) == Some((time, "Z"));
  }

  lemma LowercaseSplits(date: string, rest: string)
    requires date != "" && 'T' !in date && 't' !in date && !IsSpace(date[0]) && 'T' !in rest
    requires rest != "" && !IsSpace(rest[|rest| - 1])
    ensures Halves(Trim(date + "t" + rest)) == Some((date, rest))
  {
    var text := date + "t" + rest;
    assert text[0] == date[0] && text[|text| - 1] == rest[|rest| - 1];
    NotTrimmed(text);
    SplitOnceNone(text, 'T');
    SplitOnceAt(date, 't', rest);
  }
}
