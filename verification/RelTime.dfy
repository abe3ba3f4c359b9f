/** RELTIME text, `(-)?(h)*h:mm:ss(.uuu)?`: parser, printer, and what ties them together.

    Values are milliseconds. The arithmetic is that of the program wherever it does not leave
    64 bits; beyond that the program's behaviour is undefined and the model keeps the exact value. */
module RelTime {
  import opened Types
  import opened Numerals

  /** `string_view::find`: the first position of `c` at or after `from`; None is npos. */
  function Find(s: string, c: char, from: nat): (r: Option<nat>)
    ensures r.Some? ==> from <= r.value < |s| && s[r.value] == c && forall i | from <= i < r.value :: s[i] != c
    ensures r.None? ==> forall i | from <= i < |s| :: s[i] != c
    decreases |s| - from
  {
    if from >= |s| then None
    else if s[from] == c then Some(from)
    else Find(s, c, from + 1)
  }

  /** The digits after the point (at least one), cut to three, as milliseconds. */
  function ParseFraction(frac: string): Option<int> {
    if frac == "" then None
    else
      var digits := if |frac| > 3 then frac[..3] else frac;
      var value := ParseInt(digits, INT64_MIN, INT64_MAX);
      if value.None? then None
      else if |digits| == 1 then Some(value.value * 100)
      else if |digits| == 2 then Some(value.value * 10)
      else value
  }

  /** Seconds and the optional fraction: `ss` or `ss.` followed by digits; in milliseconds. */
  function ParseSeconds(rest: string): Option<int> {
    if |rest| < 2 then None
    else
      var seconds := ParseInt(rest[..2], INT64_MIN, INT64_MAX);
      if seconds.None? || !(0 <= seconds.value <= 59) then None
      else if |rest| == 2 then Some(1000 * seconds.value)
      else if rest[2] != '.' then None
      else
        var fraction := ParseFraction(rest[3..]);
        if fraction.None? then None else Some(1000 * seconds.value + fraction.value)
  }

  /** `mm:` and the seconds, in milliseconds. */
  function ParseMinutes(rest: string): Option<int> {
    if Find(rest, ':', 0) != Some(2) then None
    else
      var minutes := ParseInt(rest[..2], INT64_MIN, INT64_MAX);
      if minutes.None? || !(0 <= minutes.value <= 59) then None
      else
        var ms := ParseSeconds(rest[3..]);
        if ms.None? then None else Some(60000 * minutes.value + ms.value)
  }

  /** The value of the text without its sign. */
  function ParseUnsigned(s: string): Option<int> {
    var colon := Find(s, ':', 0);
    if colon.None? || colon.value == 0 then None
    else
      var hours := ParseInt(s[..colon.value], INT64_MIN, INT64_MAX);
      if hours.None? then None
      else
        var ms := ParseMinutes(s[colon.value + 1..]);
        if ms.None? then None else Some(3600000 * hours.value + ms.value)
  }

  /** The value of a RELTIME text in milliseconds, None for a parse error. */
  function ParseRel(s: string): Option<int> {
    if s != "" && s[0] == '-' then
      var value := ParseUnsigned(s[1..]);
      if value.Some? then Some(-value.value) else None
    else
      ParseUnsigned(s)
  }

  /** Searching a suffix is searching the whole from the suffix's start. */
  lemma {:induction false} FindInSuffix(s: string, c: char, start: nat, from: nat)
    requires start <= |s|
    ensures Find(s, c, start + from) ==
            var r := Find(s[start..], c, from); if r.Some? then Some(start + r.value) else None
    decreases |s| - from
  {
    if start + from < |s| && s[start + from] != c {
      FindInSuffix(s, c, start, from + 1);
    }
  }

  /** The program's straight-line parser over one text with moving positions, in three stages. */
  method ParseRelTime(s: string) returns (r: Option<int>)
    ensures r == ParseRel(s)
  {
    if s == "" {
      return None;
    }
    var negative, pos := false, 0;
    if s[0] == '-' {
      negative, pos := true, 1;
    }
    assert negative || s[pos..] == s;
    r := ParseHoursPart(s, pos);
    if negative && r.Some? {
      r := Some(-r.value);
    }
  }

  lemma UnsignedBySteps(t: string, colon: nat, hours: Option<int>, ms: Option<int>)
    requires Find(t, ':', 0) == Some(colon) && colon != 0
    requires hours == ParseInt(t[..colon], INT64_MIN, INT64_MAX)
    requires hours.Some? ==> ms == ParseMinutes(t[colon + 1..])
    ensures ParseUnsigned(t) == if hours.Some? && ms.Some? then Some(3600000 * hours.value + ms.value) else None
  {
  }

  lemma UnsignedOfSuffix(s: string, pos: nat, at: nat, hours: Option<int>, ms: Option<int>)
    requires pos < at < |s| && Find(s[pos..], ':', 0) == Some(at - pos)
    requires hours == ParseInt(s[pos..at], INT64_MIN, INT64_MAX)
    requires hours.Some? ==> ms == ParseMinutes(s[at + 1..])
    ensures ParseUnsigned(s[pos..]) ==
            if hours.Some? && ms.Some? then Some(3600000 * hours.value + ms.value) else None
  {
    var t := s[pos..];
    assert t[..at - pos] == s[pos..at] && t[at - pos + 1..] == s[at + 1..];
    UnsignedBySteps(t, at - pos, hours, ms);
  }

  method ParseHoursPart(s: string, pos: nat) returns (r: Option<int>)
    requires pos <= |s|
    ensures r == ParseUnsigned(s[pos..])
  {
    FindInSuffix(s, ':', pos, 0);
    var colon1 := Find(s, ':', pos);
    if colon1.None? || colon1.value == pos {
      return None;
    }
    r := ParseFromHours(s, pos, colon1.value);
  }

  method ParseFromHours(s: string, pos: nat, colon1: nat) returns (r: Option<int>)
    requires pos < colon1 < |s| && Find(s[pos..], ':', 0) == Some(colon1 - pos)
    ensures r == ParseUnsigned(s[pos..])
  {
    hide ParseInt, ParseUnsigned, ParseMinutes, Find;
    var hours := ParseInt(s[pos..colon1], INT64_MIN, INT64_MAX);
    if hours.None? {
      UnsignedOfSuffix(s, pos, colon1, None, None);
      return None;
    }
    var ms := ParseMinutesPart(s, colon1 + 1);
    UnsignedOfSuffix(s, pos, colon1, hours, ms);
    if ms.None? {
      return None;
    }
    return Some(3600000 * hours.value + ms.value);
  }

  method ParseMinutesPart(s: string, pos: nat) returns (r: Option<int>)
    requires pos <= |s|
    ensures r == ParseMinutes(s[pos..])
  {
    FindInSuffix(s, ':', pos, 0);
    var colon2 := Find(s, ':', pos);
    if colon2.None? || colon2.value != pos + 2 {
      return None;
    }
    assert s[pos..pos + 2] == s[pos..][..2];
    var minutes := ParseInt(s[pos..pos + 2], INT64_MIN, INT64_MAX);
    if minutes.None? {
      return None;
    }
    if minutes.value < 0 || minutes.value > 59 {
      return None;
    }
    assert s[colon2.value + 1..] == s[pos..][3..];
    var ms := ParseSecondsPart(s[colon2.value + 1..]);
    if ms.None? {
      return None;
    }
    return Some(minutes.value * 60 * 1000 + ms.value);
  }

  method ParseSecondsPart(rest: string) returns (r: Option<int>)
    ensures r == ParseSeconds(rest)
  {
    if |rest| < 2 {
      return None;
    }
    var seconds := ParseInt(rest[..2], INT64_MIN, INT64_MAX);
    if seconds.None? {
      return None;
    }
    if seconds.value < 0 || seconds.value > 59 {
      return None;
    }
    var fracMs := 0;
    if |rest| > 2 {
      if rest[2] != '.' {
        return None;
      }
      var frac := rest[3..];
      if frac == "" {
        return None;
      }
      if |frac| > 3 {
        frac := frac[..3];
      }
      var value := ParseInt(frac, INT64_MIN, INT64_MAX);
      if value.None? {
        return None;
      }
      if |frac| == 1 {
        fracMs := value.value * 100;
      } else if |frac| == 2 {
        fracMs := value.value * 10;
      } else {
        fracMs := value.value;
      }
    }
    return Some(seconds.value * 1000 + fracMs);
  }

  /** Minutes as a relative time. */
  function FromMinutes(minutes: int): int {
    minutes * 60 * 1000
  }

  // ---- Printing ----

  function UnsignedText(ms: nat): string {
    var totalSeconds, frac := ms / 1000, ms % 1000;
    PrintInt(totalSeconds / 3600, 0, false) + ":" + PrintInt(totalSeconds % 3600 / 60, 2, false) + ":" +
    PrintInt(totalSeconds % 60, 2, false) + if frac > 0 then "." + PrintInt(frac, 3, false) else ""
  }

  function RelText(ms: int): string {
    if ms < 0 then "-" + UnsignedText(-ms) else UnsignedText(ms)
  }

  method FormatRelTime(milliseconds: int) returns (text: string)
    ensures text == RelText(milliseconds)
  {
    hide PrintInt;
    var ms := milliseconds;
    var negative := ms < 0;
    if negative {
      ms := -ms;
    }
    var totalSeconds, frac := ms / 1000, ms % 1000;
    var hours, minutes, seconds := totalSeconds / 3600, totalSeconds % 3600 / 60, totalSeconds % 60;
    text := PrintInt(hours, 0, false) + ":" + PrintInt(minutes, 2, false) + ":" + PrintInt(seconds, 2, false);
    if frac > 0 {
      text := text + ("." + PrintInt(frac, 3, false));
    } else {
      text := text + "";
    }
    if negative {
      text := "-" + text;
    }
  }

  // ---- Well-formed text ----

  /** A text of the RELTIME grammar, by its parts; an empty `frac` means there is no point. */
  datatype Parts = Parts(hours: string, minutes: string, seconds: string, frac: string)

  predicate TwoDigitsBelow60(s: string) {
    |s| == 2 && AllDigits(s) && Value(s) < 60
  }

  predicate WellFormed(p: Parts) {
    && p.hours != "" && AllDigits(p.hours)
    && TwoDigitsBelow60(p.minutes) && TwoDigitsBelow60(p.seconds)
    && AllDigits(p.frac)
  }

  function SecondsText(p: Parts): string {
    p.seconds + if p.frac == "" then "" else "." + p.frac
  }

  function TextOf(p: Parts): string {
    p.hours + ":" + p.minutes + ":" + SecondsText(p)
  }

  function MeaningOf(p: Parts): int
    requires WellFormed(p)
  {
    (Value(p.hours) * 3600 + Value(p.minutes) * 60 + Value(p.seconds)) * 1000 + FractionMs(p.frac)
  }

  lemma FractionRead(frac: string)
    requires frac != "" && AllDigits(frac)
    ensures ParseFraction(frac) == Some(FractionMs(frac))
  {
    hide ParseInt, Value;
    var digits := if |frac| > 3 then frac[..3] else frac;
    ValueBelowPow10(digits);
    assert Pow10(1) == 10 * Pow10(0) && Pow10(2) == 10 * Pow10(1) && Pow10(3) == 10 * Pow10(2);
    ParseDigits(digits, INT64_MIN, INT64_MAX);
    if |frac| >= 3 {
      FractionOfPrefix(frac);
      assert |frac| == 3 ==> frac[..3] == frac;
    }
  }

  lemma SecondsRead(p: Parts)
    requires WellFormed(p)
    ensures ParseSeconds(SecondsText(p)) == Some(1000 * Value(p.seconds) + FractionMs(p.frac))
  {
    var rest := SecondsText(p);
    assert rest[..2] == p.seconds;
    ParseDigits(p.seconds, INT64_MIN, INT64_MAX);
    if p.frac != "" {
      assert rest[3..] == p.frac;
      FractionRead(p.frac);
    }
  }

  lemma {:induction false} FindFirst(s: string, c: char, from: nat, at: nat)
    requires from <= at < |s| && s[at] == c && forall i | from <= i < at :: s[i] != c
    ensures Find(s, c, from) == Some(at)
  {
  }

  lemma TextShape(p: Parts)
    ensures TextOf(p) == p.hours + (":" + (p.minutes + (":" + SecondsText(p))))
  {
  }

  /** A digit string before a colon ends at that colon. */
  lemma SplitAtColon(digits: string, rest: string)
    requires AllDigits(digits)
    ensures
      var s := digits + (":" + rest);
      Find(s, ':', 0) == Some(|digits|) && s[..|digits|] == digits && s[|digits| + 1..] == rest
  {
    FindFirst(digits + (":" + rest), ':', 0, |digits|);
  }

  lemma MinutesRead(p: Parts)
    requires WellFormed(p)
    ensures ParseMinutes(p.minutes + (":" + SecondsText(p)))
            == Some(60000 * Value(p.minutes) + 1000 * Value(p.seconds) + FractionMs(p.frac))
  {
    hide ParseInt, ParseSeconds, SecondsText, Find;
    SplitAtColon(p.minutes, SecondsText(p));
    ParseDigits(p.minutes, INT64_MIN, INT64_MAX);
    SecondsRead(p);
  }

  /** A well-formed text is read as its meaning, or rejected exactly if the hours alone leave 64 bits. */
  lemma UnsignedRead(p: Parts, s: string)
    requires WellFormed(p) && s == p.hours + (":" + (p.minutes + (":" + SecondsText(p))))
    ensures ParseUnsigned(s) == if Value(p.hours) <= INT64_MAX then Some(MeaningOf(p)) else None
  {
    hide ParseMinutes, ParseInt, Value, SecondsText, Find;
    SplitAtColon(p.hours, p.minutes + (":" + SecondsText(p)));
    ParseDigits(p.hours, INT64_MIN, INT64_MAX);
    MinutesRead(p);
  }

  lemma SignRead(s: string)
    requires s != "" && s[0] != '-'
    ensures ParseRel(s) == ParseUnsigned(s)
    ensures ParseRel("-" + s) == if ParseUnsigned(s).Some? then Some(-ParseUnsigned(s).value) else None
  {
    assert ("-" + s)[1..] == s;
  }

  lemma FirstOfConcat(a: string, b: string)
    requires a != "" && AllDigits(a)
    ensures (a + b)[0] != '-'
  {
  }

  lemma SignedRead(p: Parts, s: string)
    requires WellFormed(p) && s == p.hours + (":" + (p.minutes + (":" + SecondsText(p))))
    ensures ParseRel(s) == if Value(p.hours) <= INT64_MAX then Some(MeaningOf(p)) else None
    ensures ParseRel("-" + s) == if Value(p.hours) <= INT64_MAX then Some(-MeaningOf(p)) else None
  {
    hide ParseRel, ParseUnsigned, MeaningOf, Value, SecondsText;
    UnsignedRead(p, s);
    FirstOfConcat(p.hours, ":" + (p.minutes + (":" + SecondsText(p))));
    SignRead(s);
  }

  /** Completeness and meaning on the whole grammar, with either sign. */
  lemma WellFormedIsRead(p: Parts)
    requires WellFormed(p)
    ensures ParseRel(TextOf(p)) == if Value(p.hours) <= INT64_MAX then Some(MeaningOf(p)) else None
    ensures ParseRel("-" + TextOf(p)) == if Value(p.hours) <= INT64_MAX then Some(-MeaningOf(p)) else None
  {
    TextShape(p);
    SignedRead(p, TextOf(p));
  }

  // ---- Everything that is accepted ----

  /** A 64-bit integer text: an optional minus sign and digits. */
  predicate IsInteger(s: string) {
    ParseInt(s, INT64_MIN, INT64_MAX).Some?
  }

  /** Two characters that denote a number below 60. */
  predicate IsSixtieth(s: string) {
    |s| == 2 && IsInteger(s) && 0 <= ParseInt(s, INT64_MIN, INT64_MAX).value < 60
  }

  /** What the parser accepts, by parts. It is more than the grammar: hours may carry a second sign and anything may
      follow the third digit of a fraction. Minutes and seconds of 60 and more are not among it. */
  predicate IsAccepted(p: Parts) {
    && IsInteger(p.hours) && IsSixtieth(p.minutes) && IsSixtieth(p.seconds)
    && (p.frac != "" ==> ParseFraction(p.frac).Some?)
  }

  function AcceptedValue(p: Parts): int
    requires IsAccepted(p)
  {
    3600000 * ParseInt(p.hours, INT64_MIN, INT64_MAX).value + 60000 * ParseInt(p.minutes, INT64_MIN, INT64_MAX).value +
    1000 * ParseInt(p.seconds, INT64_MIN, INT64_MAX).value + if p.frac == "" then 0 else ParseFraction(p.frac).value
  }

  lemma IntegersHaveNoColon(s: string)
    requires IsInteger(s)
    ensures s != "" && forall i | 0 <= i < |s| :: s[i] != ':'
  {
    if s[0] == '-' {
      assert forall i | 1 <= i < |s| :: s[i] == s[1..][i - 1];
    }
  }

  lemma SplitAtFirstColon(a: string, rest: string)
    requires forall i | 0 <= i < |a| :: a[i] != ':'
    ensures
      var s := a + (":" + rest);
      Find(s, ':', 0) == Some(|a|) && s[..|a|] == a && s[|a| + 1..] == rest
  {
    FindFirst(a + (":" + rest), ':', 0, |a|);
  }

  lemma SecondsAccepted(p: Parts)
    requires IsSixtieth(p.seconds) && (p.frac != "" ==> ParseFraction(p.frac).Some?)
    ensures ParseSeconds(SecondsText(p)) ==
            Some(1000 * ParseInt(p.seconds, INT64_MIN, INT64_MAX).value +
                 if p.frac == "" then 0 else ParseFraction(p.frac).value)
  {
    hide ParseInt, ParseFraction;
    var rest := SecondsText(p);
    assert rest[..2] == p.seconds;
    if p.frac != "" {
      assert rest[3..] == p.frac;
    }
  }

  lemma UnsignedAccepted(p: Parts)
    requires IsAccepted(p)
    ensures ParseUnsigned(p.hours + (":" + (p.minutes + (":" + SecondsText(p))))) == Some(AcceptedValue(p))
  {
    hide ParseInt, ParseFraction, SecondsText, Find, ParseSeconds;
    IntegersHaveNoColon(p.hours);
    IntegersHaveNoColon(p.minutes);
    SplitAtFirstColon(p.hours, p.minutes + (":" + SecondsText(p)));
    SplitAtFirstColon(p.minutes, SecondsText(p));
    SecondsAccepted(p);
  }

  lemma SecondsHaveParts(s: string) returns (seconds: string, frac: string)
    requires ParseSeconds(s).Some?
    ensures IsSixtieth(seconds) && (frac != "" ==> ParseFraction(frac).Some?)
    ensures s == seconds + if frac == "" then "" else "." + frac
  {
    hide ParseInt;
    seconds, frac := s[..2], if |s| == 2 then "" else s[3..];
    if |s| > 2 {
      assert s == s[..2] + ("." + s[3..]);
    }
  }

  lemma UnsignedHasParts(s: string) returns (p: Parts)
    requires ParseUnsigned(s).Some?
    ensures IsAccepted(p) && s == p.hours + (":" + (p.minutes + (":" + SecondsText(p))))
  {
    hide ParseInt, ParseSeconds, ParseFraction;
    var colon := Find(s, ':', 0).value;
    var rest := s[colon + 1..];
    var seconds, frac := SecondsHaveParts(rest[3..]);
    p := Parts(s[..colon], rest[..2], seconds, frac);
    assert s == s[..colon] + (":" + rest);
    assert rest == rest[..2] + (":" + rest[3..]);
  }

  /** A text without a leading sign is accepted if and only if it has such parts. */
  lemma AcceptedUnsigned(s: string, v: int)
    ensures ParseUnsigned(s) == Some(v) <==>
            exists p :: IsAccepted(p) && s == p.hours + (":" + (p.minutes + (":" + SecondsText(p))))
                && v == AcceptedValue(p)
  {
    hide ParseUnsigned, IsAccepted, AcceptedValue, SecondsText;
    if ParseUnsigned(s) == Some(v) {
      var p := UnsignedHasParts(s);
      UnsignedAccepted(p);
    }
    if p :| IsAccepted(p) && s == p.hours + (":" + (p.minutes + (":" + SecondsText(p)))) && v == AcceptedValue(p) {
      UnsignedAccepted(p);
    }
  }

  /** Two digits that denote 60 or more, as minutes or as seconds, are rejected, with either sign. */
  lemma SixtyIsRejected(p: Parts, s: string)
    requires p.hours != "" && AllDigits(p.hours) && |p.minutes| == 2 && AllDigits(p.minutes)
    requires |p.seconds| == 2 && AllDigits(p.seconds) && (Value(p.minutes) >= 60 || Value(p.seconds) >= 60)
    requires s == p.hours + (":" + (p.minutes + (":" + SecondsText(p))))
    ensures ParseRel(s) == None && ParseRel("-" + s) == None
  {
    hide ParseInt, ParseFraction, SecondsText, Find, ParseRel, Value;
    SplitAtColon(p.hours, p.minutes + (":" + SecondsText(p)));
    SplitAtColon(p.minutes, SecondsText(p));
    SecondsStart(p);
    ParseDigits(p.minutes, INT64_MIN, INT64_MAX);
    ParseDigits(p.seconds, INT64_MIN, INT64_MAX);
    FirstOfConcat(p.hours, ":" + (p.minutes + (":" + SecondsText(p))));
    SignRead(s);
  }

  lemma SecondsStart(p: Parts)
    requires |p.seconds| == 2
    ensures |SecondsText(p)| >= 2 && SecondsText(p)[..2] == p.seconds
  {
  }

  // ---- Round trip ----

  lemma PrintedTwoDigits(n: nat)
    requires n < 60
    ensures TwoDigitsBelow60(PrintInt(n, 2, false)) && Value(PrintInt(n, 2, false)) == n
  {
    PrintedNonNegative(n, 2);
    ValueOfPadded(2 - |Decimal(n)|, n);
    assert Pow10(2) == 10 * Pow10(1) == 100 * Pow10(0);
    PrintedLength(n, 2, false);
  }

  lemma PrintedMs(n: nat)
    requires 0 < n < 1000
    ensures AllDigits(PrintInt(n, 3, false)) && |PrintInt(n, 3, false)| == 3 && Value(PrintInt(n, 3, false)) == n
  {
    PrintedNonNegative(n, 3);
    ValueOfPadded(3 - |Decimal(n)|, n);
    assert Pow10(3) == 10 * Pow10(2) == 100 * Pow10(1) == 1000 * Pow10(0);
    PrintedLength(n, 3, false);
  }

  function PartsOf(ms: nat): Parts {
    var totalSeconds, frac := ms / 1000, ms % 1000;
    Parts(PrintInt(totalSeconds / 3600, 0, false), PrintInt(totalSeconds % 3600 / 60, 2, false),
          PrintInt(totalSeconds % 60, 2, false), if frac > 0 then PrintInt(frac, 3, false) else "")
  }

  lemma PrintedHours(n: nat)
    ensures var h := PrintInt(n, 0, false); h != "" && AllDigits(h) && Value(h) == n
  {
    PrintedNonNegative(n, 0);
    ValueOfPadded(0 - |Decimal(n)|, n);
  }

  lemma PrintedFraction(n: nat)
    requires n < 1000
    ensures
      var f := if n > 0 then PrintInt(n, 3, false) else "";
      AllDigits(f) && FractionMs(f) == n && (f == "" <==> n == 0)
  {
    if n > 0 {
      PrintedMs(n);
      var f := PrintInt(n, 3, false);
      FractionOfPrefix(f);
      assert f[..3] == f;
    }
  }

  /** Hours, minutes, seconds and milliseconds recompose the number they were taken from. */
  lemma Recompose(ms: nat, p: Parts)
    requires WellFormed(p)
    requires Value(p.hours) == ms / 1000 / 3600 && Value(p.minutes) == ms / 1000 % 3600 / 60
    requires Value(p.seconds) == ms / 1000 % 60 && FractionMs(p.frac) == ms % 1000
    ensures MeaningOf(p) == ms && Value(p.hours) == ms / 3600000
  {
    var t := ms / 1000;
    assert t == t / 3600 * 3600 + t % 3600;
    assert t % 3600 == t % 3600 / 60 * 60 + t % 60;
  }

  /** The printer writes well-formed text that means the number printed. */
  lemma PrintedIsWellFormed(ms: nat)
    ensures WellFormed(PartsOf(ms)) && MeaningOf(PartsOf(ms)) == ms
    ensures Value(PartsOf(ms).hours) == ms / 3600000
  {
    PrintedHours(ms / 1000 / 3600);
    PrintedTwoDigits(ms / 1000 % 3600 / 60);
    PrintedTwoDigits(ms / 1000 % 60);
    PrintedFraction(ms % 1000);
    Recompose(ms, PartsOf(ms));
  }

  lemma PrintedText(ms: nat)
    requires WellFormed(PartsOf(ms))
    ensures TextOf(PartsOf(ms)) == UnsignedText(ms)
  {
  }

  /** Every 64-bit value except the least one survives printing and parsing. */
  lemma RelTimeRoundTrip(ms: int)
    requires INT64_MIN < ms <= INT64_MAX
    ensures ParseRel(RelText(ms)) == Some(ms)
  {
    var m := if ms < 0 then -ms else ms;
    PrintedIsWellFormed(m);
    PrintedText(m);
    WellFormedIsRead(PartsOf(m));
  }
}
