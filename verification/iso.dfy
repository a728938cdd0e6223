/** Printing an instant and parsing it back: `iso_utc` of crates/topodb-cli/src/output.rs and
    `parse_iso_instant` of crates/topodb-json/src/temporal.rs, two crates that share no code. */
module Iso {
  import opened Text
  import opened Calendar
  import opened Temporal
  import opened Batch

  function Zeros(n: nat): (s: string)
    ensures |s| == n
  {
    seq(n, _ => '0')
  }

  /** Zero-padded decimal of at least `width` characters, the sign included. */
  function Padded(n: int, width: nat): string {
    if n >= 0 then
      var s := ToDecimal(n);
      Zeros(if |s| < width then width - |s| else 0) + s
    else
      var s := ToDecimal(-n);
      "-" + Zeros(if |s| + 1 < width then width - |s| - 1 else 0) + s
  }

  /** Month and day, each behind its hyphen. */
  function MonthDayText(x: Date): string {
    "-" + Padded(x.m, 2) + "-" + Padded(x.d, 2)
  }

  function DateText(x: Date): string {
    Padded(x.y, 4) + MonthDayText(x)
  }

  /** Nothing at midnight, to the millisecond. */
  function TimeText(rem: int): string {
    if rem == 0 then ""
    else "T" + Padded(rem / 3_600_000, 2) + ":" + Padded(rem / 60_000 % 60, 2) + ":" + Padded(rem / 1000 % 60, 2) + "Z"
  }

  /** `iso_utc`. */
  function IsoUtc(ms: int): string {
    DateText(CivilFromDays(ms / DAY_MS)) + TimeText(ms % DAY_MS)
  }

  /** A mark followed by two digits. */
  predicate IsField(mark: char, s: string) {
    |s| >= 3 && s[0] == mark && IsDigit(s[1]) && IsDigit(s[2])
  }

  function FieldValue(s: string): nat
    requires |s| >= 3 && IsDigit(s[1]) && IsDigit(s[2])
  {
    10 * (s[1] as int - '0' as int) + (s[2] as int - '0' as int)
  }

  /** The date part; what follows it is left to the caller. */
  datatype Scanned = Scanned(date: Captured, rest: string)

  function ScanDate(s: string): Option<Scanned> {
    if |s| < 4 || !AllDigits(s[..4]) || !YearInRange(DigitsValue(s[..4])) then None
    else
      var y, s1 := DigitsValue(s[..4]), s[4..];
      if !IsField('-', s1) then Some(Scanned(Captured(y, None, None), s1))
      else
        var m, s2 := FieldValue(s1), s1[3..];
        if !IsField('-', s2) then Some(Scanned(Captured(y, Some(m), None), s2))
        else Some(Scanned(Captured(y, Some(m), Some(FieldValue(s2))), s2[3..]))
  }

  /** A time of day, in milliseconds: hours and minutes, optional seconds, optional `Z`. */
  function ScanTime(s: string): Option<int> {
    if !IsField('T', s) || !IsField(':', s[3..]) then None
    else
      var h, m, s2 := FieldValue(s), FieldValue(s[3..]), s[6..];
      var sec, s3 := if IsField(':', s2) then FieldValue(s2) else 0, if IsField(':', s2) then s2[3..] else s2;
      if s3 != "" && s3 != "Z" then None
      else if h > 23 || m > 59 || sec > 59 then None
      else Some((h * 3600 + m * 60 + sec) * 1000)
  }

  /** A date period and a time of day, in milliseconds. */
  datatype Instant = Instant(spec: DateSpec, time: int)

  function ParseParts(text: string): Option<Instant> {
    var scanned := ScanDate(Trim(IsSpace, text));
    if scanned.None? then None
    else
      var spec := Read(scanned.value.date);
      if spec.None? then None
      else if scanned.value.rest == "" then Some(Instant(spec.value, 0))
      else if scanned.value.date.d.None? then None
      else
        var time := ScanTime(scanned.value.rest);
        if time.None? then None else Some(Instant(spec.value, time.value))
  }

  /** `parse_iso_instant`. */
  function ParseIso(text: string): Option<int> {
    var parts := ParseParts(text);
    if parts.None? then None else Some(StartMs(parts.value.spec) + parts.value.time)
  }

  lemma PadTwo(n: int)
    requires 0 <= n <= 99
    ensures |Padded(n, 2)| == 2 && IsDigit(Padded(n, 2)[0]) && IsDigit(Padded(n, 2)[1])
    ensures 10 * (Padded(n, 2)[0] as int - '0' as int) + (Padded(n, 2)[1] as int - '0' as int) == n
  {
    if n >= 10 {
      assert ToDecimal(n) == ToDecimal(n / 10) + ['0' + (n % 10) as char];
    }
  }

  lemma {:induction false} Widths(n: nat)
    ensures n < 10 ==> |ToDecimal(n)| == 1
    ensures 10 <= n < 100 ==> |ToDecimal(n)| == 2
    ensures 100 <= n < 1000 ==> |ToDecimal(n)| == 3
    ensures 1000 <= n < 10000 ==> |ToDecimal(n)| == 4
    ensures 10000 <= n ==> |ToDecimal(n)| >= 5
  {
    if n >= 10 {
      Widths(n / 10);
    }
  }

  lemma {:induction false} ZerosAhead(k: nat, s: string)
    requires AllDigits(s)
    ensures AllDigits(Zeros(k) + s) && DigitsValue(Zeros(k) + s) == DigitsValue(s)
    decreases |s|
  {
    var t := Zeros(k) + s;
    assert AllDigits(t);
    if s == [] {
      assert t == Zeros(k);
      ZerosValue(k);
    } else {
      ZerosAhead(k, s[..|s| - 1]);
      assert t[..|t| - 1] == Zeros(k) + s[..|s| - 1];
    }
  }

  lemma {:induction false} ZerosValue(k: nat)
    ensures AllDigits(Zeros(k)) && DigitsValue(Zeros(k)) == 0
  {
    if k > 0 {
      ZerosValue(k - 1);
      assert Zeros(k)[..k - 1] == Zeros(k - 1);
    }
  }

  /** Where the printed year is exactly four digits, and what those are worth. */
  lemma PadFour(y: int)
    ensures 0 <= y <= 9999 ==> |Padded(y, 4)| == 4 && AllDigits(Padded(y, 4)) && DigitsValue(Padded(y, 4)) == y
    ensures y > 9999 ==> |Padded(y, 4)| >= 5 && AllDigits(Padded(y, 4))
    ensures y < 0 ==> |Padded(y, 4)| >= 4 && Padded(y, 4)[0] == '-'
  {
    if y >= 0 {
      Widths(y);
      DecimalValue(y);
      ZerosAhead(if |ToDecimal(y)| < 4 then 4 - |ToDecimal(y)| else 0, ToDecimal(y));
    }
  }

  /** A mark and a two-digit number at the head of a string. */
  lemma FieldAhead(mark: char, n: int, rest: string)
    requires 0 <= n <= 99
    ensures var s := [mark] + Padded(n, 2) + rest;
            IsField(mark, s) && FieldValue(s) == n && s[3..] == rest
  {
    PadTwo(n);
  }

  lemma ScanPrintedDate(x: Date, rest: string)
    requires YearInRange(x.y) && 0 <= x.m <= 99 && 0 <= x.d <= 99
    ensures ScanDate(DateText(x) + rest) == Some(Scanned(Captured(x.y, Some(x.m), Some(x.d)), rest))
  {
    PadFour(x.y);
    var s2 := ['-'] + Padded(x.d, 2) + rest;
    FieldAhead('-', x.d, rest);
    var s1 := ['-'] + Padded(x.m, 2) + s2;
    FieldAhead('-', x.m, s2);
    assert MonthDayText(x) + rest == s1;
    Reassociate(Padded(x.y, 4), MonthDayText(x), rest);
    assert (Padded(x.y, 4) + s1)[..4] == Padded(x.y, 4) && (Padded(x.y, 4) + s1)[4..] == s1;
  }

  lemma Reassociate(a: string, b: string, c: string)
    ensures (a + b) + c == a + (b + c)
  {
  }

  lemma ScanPrintedTime(h: int, m: int, sec: int)
    requires 0 <= h <= 23 && 0 <= m <= 59 && 0 <= sec <= 59
    ensures ScanTime("T" + Padded(h, 2) + ":" + Padded(m, 2) + ":" + Padded(sec, 2) + "Z") == Some((h * 3600 + m * 60 + sec) * 1000)
  {
    var s2 := [':'] + Padded(sec, 2) + "Z";
    FieldAhead(':', sec, "Z");
    var s1 := [':'] + Padded(m, 2) + s2;
    FieldAhead(':', m, s2);
    var s := ['T'] + Padded(h, 2) + s1;
    FieldAhead('T', h, s1);
    assert s == "T" + Padded(h, 2) + ":" + Padded(m, 2) + ":" + Padded(sec, 2) + "Z";
    ScanFields(s, s1, s2, h, m, sec);
  }

  lemma ScanFields(s: string, s1: string, s2: string, h: int, m: int, sec: int)
    requires 0 <= h <= 23 && 0 <= m <= 59 && 0 <= sec <= 59
    requires IsField('T', s) && FieldValue(s) == h && s[3..] == s1
    requires IsField(':', s1) && FieldValue(s1) == m && s1[3..] == s2
    requires IsField(':', s2) && FieldValue(s2) == sec && s2[3..] == "Z"
    ensures ScanTime(s) == Some((h * 3600 + m * 60 + sec) * 1000)
  {
    assert s[6..] == s[3..][3..];
  }

  /** A year printed outside 1970 to 2099 is refused, whatever follows it. */
  lemma OtherYearRefused(y: int, rest: string)
    requires !YearInRange(y) && rest != "" && rest[0] == '-'
    ensures var r := ScanDate(Padded(y, 4) + rest); r.None? || (r.value.date.d.None? && r.value.rest != "")
  {
    PadFour(y);
    var p := Padded(y, 4);
    var s := p + rest;
    if 0 <= y <= 9999 {
      assert s[..4] == p;
    } else if y > 9999 {
      assert IsDigit(p[4]) && s[4..][0] == p[4];
    } else {
      assert s[..4][0] == '-' && s[..4][0] in s[..4];
    }
  }

  lemma NothingToTrim(s: string)
    requires s != "" && !IsSpace(s[0]) && !IsSpace(s[|s| - 1])
    ensures Trim(IsSpace, s) == s
  {
  }

  lemma PaddedEnds(n: int, w: nat)
    ensures var s := Padded(n, w); s != "" && (IsDigit(s[0]) || s[0] == '-') && IsDigit(s[|s| - 1])
  {
    var d := ToDecimal(if n >= 0 then n else -n);
    assert d[|d| - 1] in d && d[0] in d;
  }

  lemma PrintedEnds(x: Date, rem: int)
    ensures Trim(IsSpace, DateText(x) + TimeText(rem)) == DateText(x) + TimeText(rem)
  {
    PaddedEnds(x.y, 4);
    PaddedEnds(x.d, 2);
    NothingToTrim(DateText(x) + TimeText(rem));
  }

  lemma AncientYears(days: int)
    requires days < FIRST
    ensures CivilFromDays(days).y <= 0
  {
    var z := days + 719468;
    var era := z / 146097;
    var doe := z - era * 146097;
    assert 0 <= doe < 146097;
    assert 0 <= YearOfEra(doe) <= 399;
    if era == 0 {
      assert doe < 306 && YearOfEra(doe) == 0;
      assert Quot(5 * doe + 2, 153) < 10;
    }
  }

  const END := 4_102_444_800_000

  /** 1970 to 2099, as instants. */
  lemma YearsOfRange(ms: int)
    ensures YearInRange(CivilFromDays(ms / DAY_MS).y) <==> 0 <= ms < END
    ensures 0 <= ms < END ==> IsDate(CivilFromDays(ms / DAY_MS)) && DaysFromCivil(CivilFromDays(ms / DAY_MS)) == ms / DAY_MS
  {
    var days := ms / DAY_MS;
    if days < FIRST {
      AncientYears(days);
    } else {
      CivilCountsEachDay(days - FIRST);
      InRangeDays(days, CivilFromDays(days));
      assert 0 <= days < 47482 <==> 0 <= ms < END;
    }
  }

  lemma FirstOfYear(x: Date, first: Date, days: int)
    requires IsDate(x) && x.y >= 1 && first.y >= 1 && first.m == first.d == 1 && DaysFromCivil(first) == days
    ensures DaysFromCivil(x) < days <==> x.y < first.y
  {
    OrderPreserved(x, first);
  }

  lemma InRangeDays(days: int, x: Date)
    requires IsDate(x) && x.y >= 1 && DaysFromCivil(x) == days
    ensures YearInRange(x.y) <==> 0 <= days < 47482
  {
    RangeEnds();
    FirstOfYear(x, Date(1970, 1, 1), 0);
    FirstOfYear(x, Date(2100, 1, 1), 47482);
  }

  lemma RangeEnds()
    ensures DaysFromCivil(Date(1970, 1, 1)) == 0 && DaysFromCivil(Date(2100, 1, 1)) == 47482
  {
  }

  lemma TimeOfDay(rem: int)
    requires 0 <= rem < DAY_MS
    ensures var h, m, s := rem / 3_600_000, rem / 60_000 % 60, rem / 1000 % 60;
            && 0 <= h <= 23 && 0 <= m <= 59 && 0 <= s <= 59
            && (h * 3600 + m * 60 + s) * 1000 == rem / 1000 * 1000
  {
    var secs := rem / 1000;
    assert rem / 60_000 == secs / 60 && rem / 3_600_000 == secs / 60 / 60;
  }

  lemma WholeSeconds(ms: int)
    ensures ms / DAY_MS * DAY_MS + ms % DAY_MS / 1000 * 1000 == ms - ms % 1000
  {
    var q, rem := ms / DAY_MS, ms % DAY_MS;
    assert ms == 1000 * (86_400 * q + rem / 1000) + rem % 1000;
    Thousands(ms, 86_400 * q + rem / 1000, rem % 1000);
  }

  lemma Thousands(n: int, k: int, r: int)
    requires n == 1000 * k + r && 0 <= r < 1000
    ensures n % 1000 == r
  {
  }

  function TimeValue(tail: string): int
    requires tail != "" ==> ScanTime(tail).Some?
  {
    if tail == "" then 0 else ScanTime(tail).value
  }

  lemma PrintedTime(rem: int)
    requires 0 <= rem < DAY_MS
    ensures var tail := TimeText(rem);
            (tail != "" ==> ScanTime(tail).Some?) && TimeValue(tail) == rem / 1000 * 1000
  {
    TimeOfDay(rem);
    if rem != 0 {
      ScanPrintedTime(rem / 3_600_000, rem / 60_000 % 60, rem / 1000 % 60);
    }
  }

  lemma ReadsParts(text: string, x: Date, tail: string)
    requires IsDate(x) && YearInRange(x.y)
    requires text == DateText(x) + tail && Trim(IsSpace, text) == text
    requires tail != "" ==> ScanTime(tail).Some?
    ensures ParseParts(text) == Some(Instant(Day(x.y, x.m, x.d), TimeValue(tail)))
  {
    ScanPrintedDate(x, tail);
  }

  lemma RefusesOther(text: string, x: Date, tail: string)
    requires !YearInRange(x.y) && text == DateText(x) + tail && Trim(IsSpace, text) == text
    ensures ParseParts(text).None?
  {
    Reassociate(Padded(x.y, 4), MonthDayText(x), tail);
    OtherYearRefused(x.y, MonthDayText(x) + tail);
  }

  /** A printed date and time of day are read back to the second if the year is in range and
      refused otherwise. */
  lemma ReadsPrinted(x: Date, rem: int)
    requires 0 <= rem < DAY_MS && (YearInRange(x.y) ==> IsDate(x))
    ensures ParseParts(DateText(x) + TimeText(rem)) ==
            if YearInRange(x.y) then Some(Instant(Day(x.y, x.m, x.d), rem / 1000 * 1000)) else None
  {
    PrintedEnds(x, rem);
    if YearInRange(x.y) {
      PrintedTime(rem);
      ReadsParts(DateText(x) + TimeText(rem), x, TimeText(rem));
    } else {
      RefusesOther(DateText(x) + TimeText(rem), x, TimeText(rem));
    }
  }

  lemma StartOfDay(x: Date, days: int)
    requires DaysFromCivil(x) == days
    ensures StartMs(Day(x.y, x.m, x.d)) == days * DAY_MS
  {
    assert x == Date(x.y, x.m, x.d);
  }

  /** What the printer prints, the parser reads back as the same instant rounded down to the
      second, for every instant of 1970 to 2099; and it refuses every other printed instant. */
  lemma PrintParse(ms: int)
    ensures ParseIso(IsoUtc(ms)) == if 0 <= ms < END then Some(ms - ms % 1000) else None
  {
    var x := CivilFromDays(ms / DAY_MS);
    YearsOfRange(ms);
    ReadsPrinted(x, ms % DAY_MS);
    if 0 <= ms < END {
      ParsedInstant(IsoUtc(ms), x, ms);
    }
  }

  lemma ParsedInstant(text: string, x: Date, ms: int)
    requires ParseParts(text) == Some(Instant(Day(x.y, x.m, x.d), ms % DAY_MS / 1000 * 1000))
    requires DaysFromCivil(x) == ms / DAY_MS
    ensures ParseIso(text) == Some(ms - ms % 1000)
  {
    StartOfDay(x, ms / DAY_MS);
    WholeSeconds(ms);
  }
}
