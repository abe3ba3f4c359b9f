/** TIME text, `yyyy-mm-ddThh:mm:ss(.uuu)?([+-]zz(:mm)?|Z)`: parser, printer, and exactly when
    printing and parsing give an instant back. */
module AbsTime {
  import opened Types
  import opened Numerals
  import opened Calendar

  /** The numbers of the first 19 characters. No range is checked. */
  datatype Fields = Fields(year: int, month: int, day: int, hour: int, minute: int, second: int)

  function Num(s: string): Option<int> {
    ParseInt(s, INT32_MIN, INT32_MAX)
  }

  function ParseFields(s: string): Option<Fields>
    requires |s| >= 19
  {
    var y, mo, d, h, mi, se := Num(s[..4]), Num(s[5..7]), Num(s[8..10]), Num(s[11..13]), Num(s[14..16]), Num(s[17..19]);
    if y.Some? && s[4] == '-' && mo.Some? && s[7] == '-' && d.Some? && s[10] == 'T' &&
       h.Some? && s[13] == ':' && mi.Some? && s[16] == ':' && se.Some?
    then Some(Fields(y.value, mo.value, d.value, h.value, mi.value, se.value))
    else None
  }

  /** Where the digits that start at `from` end. */
  function DigitRun(s: string, from: nat): (to: nat)
    requires from <= |s|
    ensures from <= to <= |s|
    ensures forall i | from <= i < to :: IsDigit(s[i])
    ensures to < |s| ==> !IsDigit(s[to])
    decreases |s| - from
  {
    if from < |s| && IsDigit(s[from]) then DigitRun(s, from + 1) else from
  }

  /** Milliseconds of the fraction digits; the digits as a whole must fit 32 bits even if only three count. */
  function FracMs(digits: string): Option<int> {
    var value := Num(digits);
    if digits == "" || value.None? then None
    else if |digits| == 1 then Some(value.value * 100)
    else if |digits| == 2 then Some(value.value * 10)
    else if |digits| == 3 then value
    else Some(Num(digits[..3]).GetOr(0))
  }

  /** The minutes part of a time zone: `:mm`, or nothing. */
  function ParseZoneMinutes(s: string): Option<int> {
    if s == "" || s[0] != ':' then Some(0)
    else if |s| < 3 then None
    else Num(s[1..3])
  }

  /** The offset in minutes of a time zone; a missing or unknown zone counts as UTC. */
  function ParseZone(s: string): Option<int> {
    if s == "" || (s[0] != '+' && s[0] != '-') then Some(0)
    else if |s| < 3 then None
    else
      var hours := Num(s[1..3]);
      if hours.None? then None
      else
        var minutes := ParseZoneMinutes(s[3..]);
        if minutes.None? then None
        else Some((hours.value * 60 + minutes.value) * if s[0] == '-' then -1 else 1)
  }

  datatype Tail = Tail(fracMs: int, offset: int)

  function WithFraction(fracMs: Option<int>, zone: Option<int>): Option<Tail> {
    if fracMs.Some? && zone.Some? then Some(Tail(fracMs.value, zone.value)) else None
  }

  /** What follows the seconds: an optional fraction and the time zone. */
  function ParseTail(s: string): Option<Tail> {
    if s != "" && s[0] == '.' then
      var to := DigitRun(s, 1);
      WithFraction(FracMs(s[1..to]), ParseZone(s[to..]))
    else
      WithFraction(Some(0), ParseZone(s))
  }

  function InstantOf(f: Fields, t: Tail): AbsoluteTime {
    var seconds := CivilDays(f.year, f.month, f.day) * 86400 + f.hour * 3600 + f.minute * 60 + f.second - t.offset * 60;
    AbsoluteTime(seconds * 1000 + t.fracMs, t.offset)
  }

  /** The instant a TIME text denotes, None for a parse error. */
  function ParseAbs(s: string): Option<AbsoluteTime> {
    if |s| < 19 then None
    else
      var f, t := ParseFields(s), ParseTail(s[19..]);
      if f.Some? && t.Some? then Some(InstantOf(f.value, t.value)) else None
  }

  // ---- The program's parser ----

  lemma {:induction false} DigitRunInSuffix(s: string, start: nat, from: nat)
    requires start + from <= |s|
    ensures DigitRun(s, start + from) == start + DigitRun(s[start..], from)
    decreases |s| - from
  {
    if start + from < |s| && IsDigit(s[start + from]) {
      DigitRunInSuffix(s, start, from + 1);
    }
  }

  method ParseZoneAt(s: string, start: nat) returns (r: Option<int>)
    requires start <= |s|
    ensures r == ParseZone(s[start..])
  {
    var pos, offset := start, 0;
    if pos < |s| {
      if s[pos] == 'Z' {
        offset, pos := 0, pos + 1;
      } else if s[pos] == '+' || s[pos] == '-' {
        var negative := s[pos] == '-';
        pos := pos + 1;
        if pos + 2 > |s| {
          return None;
        }
        assert s[pos..pos + 2] == s[start..][1..3];
        var hours := Num(s[pos..pos + 2]);
        if hours.None? {
          return None;
        }
        pos := pos + 2;
        assert s[pos..] == s[start..][3..];
        var minutes := ParseZoneMinutesAt(s, pos);
        if minutes.None? {
          return None;
        }
        offset := (hours.value * 60 + minutes.value) * if negative then -1 else 1;
      }
    }
    return Some(offset);
  }

  method ParseZoneMinutesAt(s: string, start: nat) returns (r: Option<int>)
    requires start <= |s|
    ensures r == ParseZoneMinutes(s[start..])
  {
    var pos := start;
    if pos < |s| && s[pos] == ':' {
      pos := pos + 1;
      if pos + 2 > |s| {
        return None;
      }
      assert s[pos..pos + 2] == s[start..][1..3];
      r := Num(s[pos..pos + 2]);
      return;
    }
    return Some(0);
  }

  method ReadFraction(frac: string) returns (r: Option<int>)
    ensures r == FracMs(frac)
  {
    if frac == "" {
      return None;
    }
    var value := Num(frac);
    if value.None? {
      return None;
    }
    if |frac| == 1 {
      return Some(value.value * 100);
    } else if |frac| == 2 {
      return Some(value.value * 10);
    } else if |frac| == 3 {
      return value;
    }
    var fracMs := 0;
    var cut := Num(frac[..3]);
    if cut.Some? {
      fracMs := cut.value;
    }
    return Some(fracMs);
  }

  /** Fraction and time zone, with `pos` advanced over the fraction digits by a loop. */
  method ParseTailAt(s: string, start: nat) returns (r: Option<Tail>)
    requires start <= |s|
    ensures r == ParseTail(s[start..])
  {
    hide FracMs, ParseZone;
    ghost var rest := s[start..];
    var pos, fracMs := start, 0;
    if pos < |s| && s[pos] == '.' {
      pos := pos + 1;
      var fracStart := pos;
      while pos < |s| && IsDigit(s[pos])
        invariant fracStart <= pos <= |s|
        invariant DigitRun(s, pos) == DigitRun(s, fracStart)
      {
        pos := pos + 1;
      }
      DigitRunInSuffix(s, start, 1);
      assert s[fracStart..pos] == rest[1..pos - start];
      var frac := ReadFraction(s[fracStart..pos]);
      if frac.None? {
        return None;
      }
      fracMs := frac.value;
      assert s[pos..] == rest[pos - start..];
    }
    var zone := ParseZoneAt(s, pos);
    if zone.None? {
      return None;
    }
    return Some(Tail(fracMs, zone.value));
  }

  method ParseAbsTime(s: string) returns (r: Option<AbsoluteTime>)
    ensures r == ParseAbs(s)
  {
    hide ParseFields, ParseTail, CivilDays;
    if |s| < 19 {
      return None;
    }
    var f := ParseFields(s);
    if f.None? {
      return None;
    }
    var tail := ParseTailAt(s, 19);
    if tail.None? {
      return None;
    }
    var days := CivilDays(f.value.year, f.value.month, f.value.day);
    var epochSec := days * 86400 + f.value.hour * 3600 + f.value.minute * 60 + f.value.second;
    epochSec := epochSec - tail.value.offset * 60;
    return Some(AbsoluteTime(epochSec * 1000 + tail.value.fracMs, tail.value.offset));
  }

  // ---- The printer ----

  /** Local time as `gmtime_r` breaks it down. */
  function Broken(seconds: int): Fields {
    var date, tod := DateOf(seconds / 86400), seconds % 86400;
    Fields(date.year, date.month, date.day, tod / 3600, tod % 3600 / 60, tod % 60)
  }

  function LocalMs(t: AbsoluteTime): int {
    t.epochMs + t.tzOffsetMinutes * 60000
  }

  function LocalFields(t: AbsoluteTime): Fields {
    Broken(LocalMs(t) / 1000)
  }

  function Two(n: int): string {
    PrintInt(n, 2, false)
  }

  function HeadText(f: Fields): string {
    PrintInt(f.year, 4, false) + ("-" + Two(f.month) + "-" + Two(f.day) + "T" +
    Two(f.hour) + ":" + Two(f.minute) + ":" + Two(f.second))
  }

  function Abs(n: int): nat {
    if n < 0 then -n else n
  }

  /** Hours with sign, truncated toward zero, and the absolute rest in minutes. */
  function ZoneText(offset: int): string {
    PrintInt(TruncDiv(offset, 60), 3, true) + (":" + Two(Abs(offset) % 60))
  }

  function FractionText(ms: nat): string {
    if ms > 0 then "." + PrintInt(ms, 3, false) else ""
  }

  function AbsText(t: AbsoluteTime): string {
    HeadText(LocalFields(t)) + (FractionText(LocalMs(t) % 1000) + ZoneText(t.tzOffsetMinutes))
  }

  method FormatZone(offset: int) returns (text: string)
    ensures text == ZoneText(offset)
  {
    var hours := TruncDiv(offset, 60);
    var minutes := Abs(offset - 60 * hours);
    ZoneRemainder(offset);
    text := PrintInt(hours, 3, true) + (":" + Two(minutes));
  }

  /** Splits local milliseconds into whole seconds and a remainder that is not negative. */
  method SplitSeconds(localMs: int) returns (seconds: int, ms: nat)
    ensures seconds == localMs / 1000 && ms == localMs % 1000
  {
    FloorFromTrunc(localMs);
    seconds := TruncDiv(localMs, 1000);
    var rest := localMs - 1000 * seconds;
    if rest < 0 {
      rest := rest + 1000;
      seconds := seconds - 1;
    }
    ms := rest;
  }

  lemma AbsTextIs(t: AbsoluteTime, tm: Fields, fraction: string, zone: string)
    requires tm == LocalFields(t) && fraction == FractionText(LocalMs(t) % 1000) && zone == ZoneText(t.tzOffsetMinutes)
    ensures HeadText(tm) + (fraction + zone) == AbsText(t)
  {
  }

  method FormatFraction(ms: nat) returns (text: string)
    ensures text == FractionText(ms)
  {
    text := "";
    if ms > 0 {
      text := "." + PrintInt(ms, 3, false);
    }
  }

  method FormatAbsTime(t: AbsoluteTime) returns (text: string)
    ensures text == AbsText(t)
  {
    hide AbsText, HeadText, FractionText, ZoneText, Broken;
    var epochSec, fracMs := SplitSeconds(t.epochMs + t.tzOffsetMinutes * 60 * 1000);
    var tm := Broken(epochSec);
    var zone := FormatZone(t.tzOffsetMinutes);
    var fraction := FormatFraction(fracMs);
    AbsTextIs(t, tm, fraction, zone);
    text := HeadText(tm) + (fraction + zone);
  }

  /** Truncated division with the negative-remainder fix is floor division. */
  lemma FloorFromTrunc(a: int)
    ensures
      var q := TruncDiv(a, 1000);
      var r := a - 1000 * q;
      a / 1000 == (if r < 0 then q - 1 else q) && a % 1000 == (if r < 0 then r + 1000 else r)
  {
  }

  lemma ZoneRemainder(offset: int)
    ensures Abs(offset - 60 * TruncDiv(offset, 60)) == Abs(offset) % 60
  {
  }

  // ---- Reading what the printer wrote ----

  /** The first 19 characters, given the six number texts in their widths. */
  function Head(y: string, rest: seq<string>): string
    requires |rest| == 5
  {
    y + ("-" + rest[0] + "-" + rest[1] + "T" + rest[2] + ":" + rest[3] + ":" + rest[4])
  }

  lemma HeadSlices(y: string, r: seq<string>, tail: string)
    requires |y| == 4 && |r| == 5 && forall i | 0 <= i < 5 :: |r[i]| == 2
    ensures
      var s := Head(y, r) + tail;
      && |s| == 19 + |tail| && s[19..] == tail
      && s[..4] == y && s[4] == '-' && s[5..7] == r[0] && s[7] == '-' && s[8..10] == r[1] && s[10] == 'T'
      && s[11..13] == r[2] && s[13] == ':' && s[14..16] == r[3] && s[16] == ':' && s[17..19] == r[4]
  {
    assert Head(y, r) == y + ("-" + r[0] + "-" + r[1] + "T" + r[2] + ":" + r[3] + ":" + r[4]);
  }

  lemma HeadRead(y: string, r: seq<string>, tail: string, f: Fields)
    requires |y| == 4 && |r| == 5 && forall i | 0 <= i < 5 :: |r[i]| == 2
    requires Num(y) == Some(f.year) && Num(r[0]) == Some(f.month) && Num(r[1]) == Some(f.day)
    requires Num(r[2]) == Some(f.hour) && Num(r[3]) == Some(f.minute) && Num(r[4]) == Some(f.second)
    ensures ParseAbs(Head(y, r) + tail) ==
            if ParseTail(tail).Some? then Some(InstantOf(f, ParseTail(tail).value)) else None
  {
    HeadSlices(y, r, tail);
  }

  lemma TwoRead(n: int)
    requires 0 <= n < 100
    ensures |Two(n)| == 2 && Num(Two(n)) == Some(n) && AllDigits(Two(n))
  {
    assert Pow10(2) == 10 * Pow10(1) == 100 * Pow10(0);
    PrintedLength(n, 2, false);
    ParsePrinted(n, 2, INT32_MIN, INT32_MAX);
    PrintedNonNegative(n, 2);
    ValueOfPadded(2 - |Decimal(n)|, n);
  }

  /** A point, digits and a zone text that does not start with a digit are split where they were joined. */
  lemma FractionRead(digits: string, zone: string)
    requires digits != "" && AllDigits(digits)
    requires zone != "" ==> !IsDigit(zone[0])
    ensures ParseTail("." + digits + zone) == WithFraction(FracMs(digits), ParseZone(zone))
  {
    var s := "." + digits + zone;
    DigitRunAll(s, 1, |digits| + 1);
    assert s[1..|digits| + 1] == digits && s[|digits| + 1..] == zone;
  }

  lemma {:induction false} DigitRunAll(s: string, from: nat, to: nat)
    requires from <= to <= |s|
    requires forall i | from <= i < to :: IsDigit(s[i])
    requires to < |s| ==> !IsDigit(s[to])
    ensures DigitRun(s, from) == to
    decreases |s| - from
  {
    if from < to {
      DigitRunAll(s, from + 1, to);
    }
  }

  lemma ZoneTextStart(offset: int)
    ensures
      var z := ZoneText(offset);
      |z| >= 3 && z[0] == if TruncDiv(offset, 60) < 0 then '-' else '+'
  {
    PrintedLength(TruncDiv(offset, 60), 3, true);
  }

  lemma TailRead(ms: int, offset: int)
    requires 0 <= ms < 1000
    ensures ParseTail(FractionText(ms) + ZoneText(offset)) == WithFraction(Some(ms), ParseZone(ZoneText(offset)))
  {
    var zone := ZoneText(offset);
    ZoneTextStart(offset);
    if ms > 0 {
      var digits := PrintInt(ms, 3, false);
      assert Pow10(3) == 10 * Pow10(2) == 100 * Pow10(1) == 1000 * Pow10(0);
      PrintedLength(ms, 3, false);
      PrintedNonNegative(ms, 3);
      ValueOfPadded(3 - |Decimal(ms)|, ms);
      ParsePrinted(ms, 3, INT32_MIN, INT32_MAX);
      FractionRead(digits, zone);
      assert FractionText(ms) + zone == "." + digits + zone;
    } else {
      assert FractionText(ms) + zone == zone;
    }
  }

  // ---- Time zones ----

  /** The sign, zeros and digits of the hours of a time zone. */
  lemma SignedHours(h: int)
    ensures PrintInt(h, 3, true) == (if h < 0 then "-" else "+") + (Zeros(2 - |Decimal(Abs(h))|) + Decimal(Abs(h)))
  {
  }

  lemma ZoneRead(sign: string, hours: string, minutes: string)
    requires (sign == "+" || sign == "-") && |hours| == 2 && |minutes| == 2
    requires Num(hours).Some? && Num(minutes).Some?
    ensures ParseZone(sign + hours + (":" + minutes)) ==
            Some((Num(hours).value * 60 + Num(minutes).value) * if sign == "-" then -1 else 1)
  {
    var z := sign + hours + (":" + minutes);
    assert z[1..3] == hours && z[3..] == ":" + minutes;
    assert (":" + minutes)[1..3] == minutes;
  }

  lemma HoursRead(h: int) returns (hours: string)
    requires Abs(h) < 100
    ensures PrintInt(h, 3, true) == (if h < 0 then "-" else "+") + hours
    ensures |hours| == 2 && Num(hours) == Some(Abs(h))
  {
    hours := Zeros(2 - |Decimal(Abs(h))|) + Decimal(Abs(h));
    SignedHours(h);
    ParsePadded(2 - |Decimal(Abs(h))|, Abs(h), INT32_MIN, INT32_MAX);
    assert Pow10(2) == 10 * Pow10(1) == 100 * Pow10(0);
    DecimalLength(Abs(h), 2);
  }

  lemma OffsetParts(offset: int)
    ensures Abs(TruncDiv(offset, 60)) == Abs(offset) / 60
    ensures TruncDiv(offset, 60) < 0 <==> offset <= -60
    ensures Abs(offset) / 60 * 60 + Abs(offset) % 60 == Abs(offset)
  {
  }

  lemma ZonePartsRead(h: int, m: int)
    requires Abs(h) < 100 && 0 <= m < 100
    ensures ParseZone(PrintInt(h, 3, true) + (":" + Two(m))) == Some((Abs(h) * 60 + m) * if h < 0 then -1 else 1)
  {
    hide ParseZone, Num, PrintInt, Two;
    var hours := HoursRead(h);
    TwoRead(m);
    ZoneRead(if h < 0 then "-" else "+", hours, Two(m));
  }

  /** What reading back a printed offset of at most 99 hours gives: the size, with the sign of the hours. */
  lemma ShortZoneRead(offset: int)
    requires Abs(offset) < 6000
    ensures ParseZone(ZoneText(offset)) == Some(if offset <= -60 then offset else Abs(offset))
  {
    OffsetParts(offset);
    ZonePartsRead(TruncDiv(offset, 60), Abs(offset) % 60);
  }

  /** Offsets of 100 hours and more are cut to their first two digits. */
  lemma LongZoneRead(offset: int)
    requires Abs(offset) >= 6000
    ensures ParseZone(ZoneText(offset)).Some? ==> Abs(ParseZone(ZoneText(offset)).value) < 6000
  {
    var h := TruncDiv(offset, 60);
    var digits, z := Decimal(Abs(h)), ZoneText(offset);
    SignedHours(h);
    assert Pow10(2) == 10 * Pow10(1) == 100 * Pow10(0);
    DecimalLength(Abs(h), 2);
    assert Zeros(2 - |digits|) == "";
    var first := digits[..2];
    assert z[1..3] == first && z[3] == digits[2];
    ValueBelowPow10(first);
    ParseDigits(first, INT32_MIN, INT32_MAX);
    assert z[3..][0] == digits[2];
  }

  // ---- Round trip ----

  lemma YearFits(y: int)
    ensures |PrintInt(y, 4, false)| == 4 <==> -999 <= y <= 9999
    ensures |PrintInt(y, 4, false)| >= 4
    ensures forall i | 1 <= i < |PrintInt(y, 4, false)| :: IsDigit(PrintInt(y, 4, false)[i])
  {
    assert Pow10(3) == 10 * Pow10(2) == 100 * Pow10(1) == 1000 * Pow10(0);
    assert Pow10(4) == 10 * Pow10(3);
    PrintedLength(y, 4, false);
  }

  lemma YearTooLong(f: Fields, tail: string)
    requires !(-999 <= f.year <= 9999)
    ensures ParseAbs(HeadText(f) + tail) == None
  {
    YearFits(f.year);
    var s := HeadText(f) + tail;
    assert s[4] == PrintInt(f.year, 4, false)[4];
  }

  lemma BrokenIsInRange(seconds: int)
    ensures
      var f := Broken(seconds);
      0 <= f.month < 100 && 0 <= f.day < 100 && 0 <= f.hour < 100 && 0 <= f.minute < 100 && 0 <= f.second < 100
  {
    assert ValidDate(DateOf(seconds / 86400));
  }

  lemma PrintedHeadRead(f: Fields, tail: string)
    requires -999 <= f.year <= 9999
    requires 0 <= f.month < 100 && 0 <= f.day < 100 && 0 <= f.hour < 100 && 0 <= f.minute < 100 && 0 <= f.second < 100
    ensures ParseAbs(HeadText(f) + tail) ==
            if ParseTail(tail).Some? then Some(InstantOf(f, ParseTail(tail).value)) else None
  {
    hide ParseAbs, ParseTail, InstantOf, PrintInt, ParseInt, AllDigits;
    YearFits(f.year);
    ParsePrinted(f.year, 4, INT32_MIN, INT32_MAX);
    TwoRead(f.month);
    TwoRead(f.day);
    TwoRead(f.hour);
    TwoRead(f.minute);
    TwoRead(f.second);
    var rest := [Two(f.month), Two(f.day), Two(f.hour), Two(f.minute), Two(f.second)];
    HeadRead(PrintInt(f.year, 4, false), rest, tail, f);
  }

  lemma TimeOfDay(tod: int)
    requires 0 <= tod
    ensures tod / 3600 * 3600 + tod % 3600 / 60 * 60 + tod % 60 == tod
  {
    var hours, rest := tod / 3600, tod % 3600;
    var minutes := rest / 60;
    assert tod == hours * 3600 + rest;
    assert rest == minutes * 60 + rest % 60;
    assert tod == 60 * (hours * 60 + minutes) + rest % 60;
  }

  /** Putting broken-down local time together again gives the local seconds. */
  lemma BrokenRecomposes(seconds: int)
    ensures
      var f := Broken(seconds);
      CivilDays(f.year, f.month, f.day) * 86400 + f.hour * 3600 + f.minute * 60 + f.second == seconds
  {
    var date, tod := DateOf(seconds / 86400), seconds % 86400;
    CivilDaysIsDayNumber(date);
    TimeOfDay(tod);
  }

  lemma InstantRecomposes(t: AbsoluteTime, offset: int)
    ensures InstantOf(LocalFields(t), Tail(LocalMs(t) % 1000, offset)) ==
            AbsoluteTime(t.epochMs + 60000 * (t.tzOffsetMinutes - offset), offset)
  {
    BrokenRecomposes(LocalMs(t) / 1000);
  }

  lemma PrintedTextRead(f: Fields, ms: int, offset: int)
    requires -999 <= f.year <= 9999 && 0 <= ms < 1000
    requires 0 <= f.month < 100 && 0 <= f.day < 100 && 0 <= f.hour < 100 && 0 <= f.minute < 100 && 0 <= f.second < 100
    ensures
      var zone := ParseZone(ZoneText(offset));
      ParseAbs(HeadText(f) + (FractionText(ms) + ZoneText(offset))) ==
        if zone.Some? then Some(InstantOf(f, Tail(ms, zone.value))) else None
  {
    PrintedHeadRead(f, FractionText(ms) + ZoneText(offset));
    TailRead(ms, offset);
  }

  /** With a local year of up to four characters, everything but the offset survives: the text is read with the offset
      as the zone text gives it, at the same local time. */
  lemma PrintedIsRead(t: AbsoluteTime, zone: Option<int>)
    requires -999 <= LocalFields(t).year <= 9999
    requires zone == ParseZone(ZoneText(t.tzOffsetMinutes))
    ensures ParseAbs(AbsText(t)) ==
            if zone.Some?
            then Some(AbsoluteTime(t.epochMs + 60000 * (t.tzOffsetMinutes - zone.value), zone.value))
            else None
  {
    hide ParseAbs, ParseZone, HeadText, FractionText, ZoneText, Broken, InstantOf;
    BrokenIsInRange(LocalMs(t) / 1000);
    PrintedTextRead(LocalFields(t), LocalMs(t) % 1000, t.tzOffsetMinutes);
    if zone.Some? {
      InstantRecomposes(t, zone.value);
    }
  }

  /** The offset survives exactly if it is below 100 hours and not one of the 59 that lose their sign. */
  lemma OffsetRoundTrip(offset: int)
    ensures ParseZone(ZoneText(offset)) == Some(offset) <==> -6000 < offset < 6000 && !(-59 <= offset <= -1)
  {
    if -6000 < offset < 6000 {
      ShortZoneRead(offset);
    } else {
      LongZoneRead(offset);
    }
  }

  lemma SameLocalTime(t: AbsoluteTime, zone: Option<int>, r: Option<AbsoluteTime>)
    requires r == if zone.Some?
                  then Some(AbsoluteTime(t.epochMs + 60000 * (t.tzOffsetMinutes - zone.value), zone.value))
                  else None
    ensures r == Some(t) <==> zone == Some(t.tzOffsetMinutes)
  {
  }

  lemma FittingYearRoundTrip(t: AbsoluteTime, zone: Option<int>)
    requires -999 <= LocalFields(t).year <= 9999
    requires zone == ParseZone(ZoneText(t.tzOffsetMinutes))
    ensures ParseAbs(AbsText(t)) == Some(t) <==> zone == Some(t.tzOffsetMinutes)
  {
    PrintedIsRead(t, zone);
    SameLocalTime(t, zone, ParseAbs(AbsText(t)));
  }

  lemma LongYearIsRejected(t: AbsoluteTime)
    requires !(-999 <= LocalFields(t).year <= 9999)
    ensures ParseAbs(AbsText(t)) == None
  {
    YearTooLong(LocalFields(t), FractionText(LocalMs(t) % 1000) + ZoneText(t.tzOffsetMinutes));
  }

  /** Exactly when printing and parsing give the instant and its offset back: the local year takes four characters
      (so -999 to 9999), and the offset is below 100 hours and not one of the 59 that lose their sign. */
  lemma TimeRoundTrip(t: AbsoluteTime)
    ensures ParseAbs(AbsText(t)) == Some(t) <==>
            && -999 <= LocalFields(t).year <= 9999
            && -6000 < t.tzOffsetMinutes < 6000
            && !(-59 <= t.tzOffsetMinutes <= -1)
  {
    if -999 <= LocalFields(t).year <= 9999 {
      FittingYearRoundTrip(t, ParseZone(ZoneText(t.tzOffsetMinutes)));
      OffsetRoundTrip(t.tzOffsetMinutes);
    } else {
      LongYearIsRejected(t);
    }
  }

  // ---- Well-formed text ----

  /** A text of the TIME grammar, by its parts. `frac` may be empty; so may `zoneMinutes`. */
  datatype Parts = Parts(year: string, rest: seq<string>, frac: string, zone: ZoneParts)

  datatype ZoneParts = Utc | Offset(sign: char, hours: string, minutes: string)

  predicate TwoDigits(s: string) {
    |s| == 2 && AllDigits(s)
  }

  predicate WellFormedZone(z: ZoneParts) {
    z.Offset? ==> (z.sign == '+' || z.sign == '-') && TwoDigits(z.hours) && (z.minutes == "" || TwoDigits(z.minutes))
  }

  predicate WellFormed(p: Parts) {
    && |p.year| == 4 && AllDigits(p.year)
    && |p.rest| == 5 && (forall i | 0 <= i < 5 :: TwoDigits(p.rest[i]))
    && AllDigits(p.frac)
    && WellFormedZone(p.zone)
  }

  function ZonePartsText(z: ZoneParts): string {
    match z
    case Utc => "Z"
    case Offset(sign, hours, minutes) => [sign] + hours + if minutes == "" then "" else ":" + minutes
  }

  function TextOf(p: Parts): string
    requires WellFormed(p)
  {
    Head(p.year, p.rest) + (if p.frac == "" then ZonePartsText(p.zone) else "." + p.frac + ZonePartsText(p.zone))
  }

  function OffsetOf(z: ZoneParts): int
    requires WellFormedZone(z)
  {
    match z
    case Utc => 0
    case Offset(sign, hours, minutes) =>
      (Value(hours) * 60 + if minutes == "" then 0 else Value(minutes)) * if sign == '-' then -1 else 1
  }

  function MeaningOf(p: Parts): AbsoluteTime
    requires WellFormed(p)
  {
    InstantOf(Fields(Value(p.year), Value(p.rest[0]), Value(p.rest[1]), Value(p.rest[2]), Value(p.rest[3]),
                     Value(p.rest[4])),
              Tail(FractionMs(p.frac), OffsetOf(p.zone)))
  }

  lemma WellFormedZoneIsRead(z: ZoneParts)
    requires WellFormedZone(z)
    ensures ParseZone(ZonePartsText(z)) == Some(OffsetOf(z))
  {
    hide ParseInt, Value;
    if z.Offset? {
      var s := ZonePartsText(z);
      assert s[1..3] == z.hours;
      ValueBelowPow10(z.hours);
      ParseDigits(z.hours, INT32_MIN, INT32_MAX);
      assert Pow10(2) == 10 * Pow10(1) == 100 * Pow10(0);
      if z.minutes == "" {
        assert s[3..] == "";
      } else {
        assert s[3..] == ":" + z.minutes && s[3..][1..3] == z.minutes;
        ValueBelowPow10(z.minutes);
        ParseDigits(z.minutes, INT32_MIN, INT32_MAX);
      }
    }
  }

  /** Fraction digits are read as their milliseconds, rounded down, unless the digits as a whole leave 32 bits. */
  lemma FractionDigitsRead(frac: string)
    requires frac != "" && AllDigits(frac)
    ensures FracMs(frac) == if Value(frac) <= INT32_MAX then Some(FractionMs(frac)) else None
  {
    hide ParseInt, Value;
    assert Pow10(1) == 10 * Pow10(0) && Pow10(2) == 10 * Pow10(1) && Pow10(3) == 10 * Pow10(2);
    ParseDigits(frac, INT32_MIN, INT32_MAX);
    if |frac| >= 3 {
      FractionOfPrefix(frac);
      ValueBelowPow10(frac[..3]);
      ParseDigits(frac[..3], INT32_MIN, INT32_MAX);
      assert |frac| == 3 ==> frac[..3] == frac;
    }
  }

  lemma WellFormedTailIsRead(frac: string, z: ZoneParts)
    requires AllDigits(frac) && WellFormedZone(z)
    ensures ParseTail(if frac == "" then ZonePartsText(z) else "." + frac + ZonePartsText(z)) ==
            if Value(frac) <= INT32_MAX then Some(Tail(FractionMs(frac), OffsetOf(z))) else None
  {
    WellFormedZoneIsRead(z);
    if frac != "" {
      FractionRead(frac, ZonePartsText(z));
      FractionDigitsRead(frac);
    }
  }

  lemma DigitsInWidth(s: string)
    requires s != "" && AllDigits(s) && |s| <= 4
    ensures Num(s) == Some(Value(s))
  {
    ValueBelowPow10(s);
    assert Pow10(1) == 10 * Pow10(0) && Pow10(2) == 10 * Pow10(1) && Pow10(3) == 10 * Pow10(2) &&
           Pow10(4) == 10 * Pow10(3);
    ParseDigits(s, INT32_MIN, INT32_MAX);
  }

  /** Completeness and meaning on the whole grammar: a well-formed TIME is read as its meaning, and rejected exactly if
      its fraction digits, read as one integer, leave 32 bits. */
  lemma WellFormedIsRead(p: Parts)
    requires WellFormed(p)
    ensures ParseAbs(TextOf(p)) == if Value(p.frac) <= INT32_MAX then Some(MeaningOf(p)) else None
  {
    DigitsInWidth(p.year);
    forall i | 0 <= i < 5
      ensures Num(p.rest[i]) == Some(Value(p.rest[i]))
    {
      DigitsInWidth(p.rest[i]);
    }
    var f := Fields(Value(p.year), Value(p.rest[0]), Value(p.rest[1]), Value(p.rest[2]), Value(p.rest[3]),
                    Value(p.rest[4]));
    var tail := if p.frac == "" then ZonePartsText(p.zone) else "." + p.frac + ZonePartsText(p.zone);
    HeadRead(p.year, p.rest, tail, f);
    WellFormedTailIsRead(p.frac, p.zone);
  }

  /** A well-formed text whose fraction is too long for 32 bits. */
  lemma LongFractionIsRejected()
    ensures
      var p := Parts("2024", ["01", "02", "03", "04", "05"], "9999999999", Utc);
      WellFormed(p) && ParseAbs(TextOf(p)) == None
  {
    hide ParseAbs, TextOf, MeaningOf, Value;
    var p := Parts("2024", ["01", "02", "03", "04", "05"], "9999999999", Utc);
    ValueAtLeastLeading(p.frac);
    assert Pow10(3) == 10 * Pow10(2) == 100 * Pow10(1) == 1000 * Pow10(0);
    PowersOfThree(3);
    PowersOfThree(6);
    WellFormedIsRead(p);
  }

  // ---- Everything that is accepted ----

  /** What the parser accepts as date and time: number texts of the right widths with these separators between them. The
      numbers may carry a minus sign and are not checked for range. */
  predicate IsHead(year: string, rest: seq<string>) {
    && |year| == 4 && Num(year).Some? && |rest| == 5
    && (forall i | 0 <= i < 5 :: |rest[i]| == 2 && Num(rest[i]).Some?)
  }

  function HeadFields(year: string, rest: seq<string>): Fields
    requires IsHead(year, rest)
  {
    Fields(Num(year).value, Num(rest[0]).value, Num(rest[1]).value, Num(rest[2]).value, Num(rest[3]).value,
           Num(rest[4]).value)
  }

  lemma HeadHasParts(s: string) returns (year: string, rest: seq<string>)
    requires |s| >= 19 && ParseFields(s).Some?
    ensures IsHead(year, rest) && s == Head(year, rest) + s[19..]
  {
    hide Num;
    year, rest := s[..4], [s[5..7], s[8..10], s[11..13], s[14..16], s[17..19]];
    assert |Head(year, rest)| == 19;
    assert s[..19] == Head(year, rest);
    assert s == s[..19] + s[19..];
  }

  /** A text is accepted if and only if it is an accepted date and time followed by an accepted rest. */
  lemma AcceptedTime(s: string, t: AbsoluteTime)
    ensures ParseAbs(s) == Some(t) <==>
            exists year, rest, tail :: && IsHead(year, rest) && s == Head(year, rest) + tail
                                       && ParseTail(tail).Some?
                                       && t == InstantOf(HeadFields(year, rest), ParseTail(tail).value)
  {
    hide Num, ParseTail, InstantOf, ParseFields;
    if ParseAbs(s) == Some(t) {
      var year, rest := HeadHasParts(s);
      HeadRead(year, rest, s[19..], HeadFields(year, rest));
    }
    if year, rest, tail :| IsHead(year, rest) && s == Head(year, rest) + tail && ParseTail(tail).Some?
                           && t == InstantOf(HeadFields(year, rest), ParseTail(tail).value) {
      HeadRead(year, rest, tail, HeadFields(year, rest));
    }
  }

  /** The rest with a fraction: a point, all the digits that follow, at least one, and the time zone. */
  lemma AcceptedFraction(digits: string, zone: string)
    requires AllDigits(digits) && (zone != "" ==> !IsDigit(zone[0]))
    ensures digits == "" ==> ParseTail("." + digits + zone) == None
    ensures digits != "" ==> ParseTail("." + digits + zone) == WithFraction(FracMs(digits), ParseZone(zone))
  {
    hide ParseZone;
    if digits != "" {
      FractionRead(digits, zone);
    } else {
      var s := "." + digits + zone;
      assert s[1..] == zone;
      assert DigitRun(s, 1) == 1 by {
        assert |s| > 1 ==> s[1] == zone[0];
      }
      assert s[1..1] == "";
    }
  }

  /** Without a point the rest is the time zone. */
  lemma AcceptedWithoutFraction(zone: string)
    requires zone == "" || zone[0] != '.'
    ensures ParseTail(zone) == WithFraction(Some(0), ParseZone(zone))
  {
    hide ParseZone;
  }

  /** A zone that starts with a sign needs two characters of hours, and two of minutes after a colon; any other text
      counts as UTC. */
  lemma AcceptedZone(s: string)
    ensures s == "" || (s[0] != '+' && s[0] != '-') ==> ParseZone(s) == Some(0)
    ensures s != "" && (s[0] == '+' || s[0] == '-') ==>
            (ParseZone(s).Some? <==>
             |s| >= 3 && Num(s[1..3]).Some? && (|s| > 3 && s[3] == ':' ==> |s| >= 6 && Num(s[4..6]).Some?))
    ensures s != "" && (s[0] == '+' || s[0] == '-') && ParseZone(s).Some? ==>
            var minutes := if |s| > 3 && s[3] == ':' then Num(s[4..6]).value else 0;
            ParseZone(s) == Some((Num(s[1..3]).value * 60 + minutes) * if s[0] == '-' then -1 else 1)
  {
    hide Num;
    if |s| >= 6 {
      assert s[3..][1..3] == s[4..6];
    }
  }
}
