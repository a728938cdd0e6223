/** Which texts `parse_iso_instant` accepts, and as which instant
    (crates/topodb-json/src/temporal.rs). */
module IsoForms {
  import opened Text
  import opened Calendar
  import opened Temporal
  import opened Batch
  import opened Iso

  /** A time of day as written: seconds and the final `Z` may be left out. */
  datatype Clock = Clock(h: nat, m: nat, sec: Option<nat>, zulu: bool)

  /** An instant as written: a year, a month, or a day with or without a time. */
  datatype Written =
    | OfYear(y: nat)
    | OfMonth(y: nat, m: nat)
    | OfDay(y: nat, m: nat, d: nat)
    | At(y: nat, m: nat, d: nat, clock: Clock)

  function ClockText(c: Clock): string {
    "T" + Padded(c.h, 2) + (":" + Padded(c.m, 2) + SecondsText(c))
  }

  function SecondsText(c: Clock): string {
    (if c.sec.Some? then ":" + Padded(c.sec.value, 2) else "") + (if c.zulu then "Z" else "")
  }

  function WrittenText(w: Written): string {
    match w
    case OfYear(y) => Padded(y, 4)
    case OfMonth(y, m) => Padded(y, 4) + ("-" + Padded(m, 2))
    case OfDay(y, m, d) => DateText(Date(y, m, d))
    case At(y, m, d, clock) => DateText(Date(y, m, d)) + ClockText(clock)
  }

  /** The year is in range, the date exists, and so does the time of day. */
  predicate Proper(w: Written) {
    && YearInRange(w.y)
    && match w
       case OfYear(y) => true
       case OfMonth(y, m) => 1 <= m <= 12
       case OfDay(y, m, d) => IsDate(Date(y, m, d))
       case At(y, m, d, clock) => IsDate(Date(y, m, d)) && ProperClock(clock)
  }

  predicate ProperClock(c: Clock) {
    c.h <= 23 && c.m <= 59 && (c.sec.Some? ==> c.sec.value <= 59)
  }

  function ClockMs(c: Clock): nat {
    ((c.h * 60 + c.m) * 60 + if c.sec.Some? then c.sec.value else 0) * 1000
  }

  /** The year, month or day that is written. */
  function SpecOf(w: Written): DateSpec {
    match w
    case OfYear(y) => Year(y)
    case OfMonth(y, m) => Month(y, m)
    case OfDay(y, m, d) => Day(y, m, d)
    case At(y, m, d, _) => Day(y, m, d)
  }

  function TimeOf(w: Written): nat {
    if w.At? then ClockMs(w.clock) else 0
  }

  /** Milliseconds since the epoch: what is left out is the first day, and midnight. */
  function InstantOf(w: Written): int {
    StartMs(SpecOf(w)) + TimeOf(w)
  }

  /** `text` is `w` but for white space around it. */
  predicate Spells(text: string, w: Written) {
    Trim(IsSpace, text) == WrittenText(w)
  }

  // ----- what is written is accepted -----

  lemma ScansYear(y: nat, rest: string)
    requires YearInRange(y) && !IsField('-', rest)
    ensures ScanDate(Padded(y, 4) + rest) == Some(Scanned(Captured(y, None, None), rest))
  {
    PadFour(y);
    assert (Padded(y, 4) + rest)[..4] == Padded(y, 4) && (Padded(y, 4) + rest)[4..] == rest;
  }

  lemma ScansMonth(y: nat, m: nat)
    requires YearInRange(y) && m <= 12
    ensures ScanDate(Padded(y, 4) + ("-" + Padded(m, 2))) == Some(Scanned(Captured(y, Some(m), None), ""))
  {
    PadFour(y);
    FieldAhead('-', m, "");
    var s1 := "-" + Padded(m, 2);
    assert ['-'] + Padded(m, 2) + "" == s1;
    assert (Padded(y, 4) + s1)[..4] == Padded(y, 4) && (Padded(y, 4) + s1)[4..] == s1;
  }

  lemma ScannedClock(c: Clock, s: string, s1: string, s2: string, end: string)
    requires ProperClock(c) && (end == "" || end == "Z")
    requires IsField('T', s) && FieldValue(s) == c.h && s[3..] == s1
    requires IsField(':', s1) && FieldValue(s1) == c.m && s1[3..] == s2
    requires if c.sec.Some? then IsField(':', s2) && FieldValue(s2) == c.sec.value && s2[3..] == end else s2 == end
    ensures ScanTime(s) == Some(ClockMs(c))
  {
    assert s[6..] == s[3..][3..];
  }

  lemma ScansClock(c: Clock)
    requires ProperClock(c)
    ensures ScanTime(ClockText(c)) == Some(ClockMs(c))
  {
    var end := if c.zulu then "Z" else "";
    var s2 := SecondsText(c);
    if c.sec.Some? {
      FieldAhead(':', c.sec.value, end);
    }
    var s1 := [':'] + Padded(c.m, 2) + s2;
    FieldAhead(':', c.m, s2);
    var s := ['T'] + Padded(c.h, 2) + s1;
    FieldAhead('T', c.h, s1);
    ScannedClock(c, s, s1, s2, end);
  }

  /** What a scan and a proper date come to. */
  lemma ScannedParts(text: string, date: Captured, rest: string, spec: DateSpec, time: int)
    requires ScanDate(Trim(IsSpace, text)) == Some(Scanned(date, rest)) && Read(date) == Some(spec)
    requires if rest == "" then time == 0 else date.d.Some? && ScanTime(rest) == Some(time)
    ensures ParseParts(text) == Some(Instant(spec, time))
  {
  }

  lemma YearAccepted(text: string, y: nat)
    requires Trim(IsSpace, text) == Padded(y, 4) && YearInRange(y)
    ensures ParseParts(text) == Some(Instant(Year(y), 0))
  {
    ScansYear(y, "");
    assert Padded(y, 4) + "" == Padded(y, 4);
    ScannedParts(text, Captured(y, None, None), "", Year(y), 0);
  }

  lemma DayAccepted(text: string, x: Date, tail: string, time: int)
    requires Trim(IsSpace, text) == DateText(x) + tail && YearInRange(x.y) && IsDate(x)
    requires if tail == "" then time == 0 else ScanTime(tail) == Some(time)
    ensures ParseParts(text) == Some(Instant(Day(x.y, x.m, x.d), time))
  {
    ScanPrintedDate(x, tail);
    ScannedParts(text, Captured(x.y, Some(x.m), Some(x.d)), tail, Day(x.y, x.m, x.d), time);
  }

  lemma BareDayAccepted(text: string, y: nat, m: nat, d: nat)
    requires Trim(IsSpace, text) == DateText(Date(y, m, d)) && YearInRange(y) && IsDate(Date(y, m, d))
    ensures ParseParts(text) == Some(Instant(Day(y, m, d), 0))
  {
    var date := DateText(Date(y, m, d));
    assert date + "" == date;
    DayAccepted(text, Date(y, m, d), "", 0);
  }

  lemma TimeAccepted(text: string, y: nat, m: nat, d: nat, clock: Clock)
    requires Trim(IsSpace, text) == DateText(Date(y, m, d)) + ClockText(clock)
    requires YearInRange(y) && IsDate(Date(y, m, d)) && ProperClock(clock)
    ensures ParseParts(text) == Some(Instant(Day(y, m, d), ClockMs(clock)))
  {
    var tail := ClockText(clock);
    ScansClock(clock);
    assert tail != "";
    DayAccepted(text, Date(y, m, d), tail, ClockMs(clock));
  }

  lemma MonthAccepted(text: string, y: nat, m: nat)
    requires Trim(IsSpace, text) == Padded(y, 4) + ("-" + Padded(m, 2)) && YearInRange(y) && 1 <= m <= 12
    ensures ParseParts(text) == Some(Instant(Month(y, m), 0))
  {
    ScansMonth(y, m);
    ScannedParts(text, Captured(y, Some(m), None), "", Month(y, m), 0);
  }

  lemma WrittenIsAccepted(text: string, w: Written)
    requires Spells(text, w) && Proper(w)
    ensures ParseParts(text) == Some(Instant(SpecOf(w), TimeOf(w)))
  {
    match w
    case OfYear(y) => YearAccepted(text, y);
    case OfMonth(y, m) => MonthAccepted(text, y, m);
    case OfDay(y, m, d) => BareDayAccepted(text, y, m, d);
    case At(y, m, d, clock) => TimeAccepted(text, y, m, d, clock);
  }

  // ----- what is accepted was so written -----

  lemma {:induction false} SameDigits(a: string, b: string)
    requires AllDigits(a) && AllDigits(b) && |a| == |b| && DigitsValue(a) == DigitsValue(b)
    ensures a == b
    decreases |a|
  {
    if a != [] {
      var n := |a| - 1;
      assert IsDigit(a[n]) && IsDigit(b[n]);
      SameDigits(a[..n], b[..n]);
      assert a == a[..n] + [a[n]] && b == b[..n] + [b[n]];
    }
  }

  lemma YearText(s: string)
    requires |s| == 4 && AllDigits(s) && YearInRange(DigitsValue(s))
    ensures Padded(DigitsValue(s), 4) == s
  {
    PadFour(DigitsValue(s));
    SameDigits(Padded(DigitsValue(s), 4), s);
  }

  /** A field is its mark and the two digits of its value. */
  lemma FieldText(mark: char, s: string)
    requires IsField(mark, s)
    ensures FieldValue(s) <= 99 && s == [mark] + Padded(FieldValue(s), 2) + s[3..]
  {
    var n, p := FieldValue(s), Padded(FieldValue(s), 2);
    PadTwo(n);
    assert p[0] == s[1] && p[1] == s[2];
    assert p == [s[1], s[2]];
  }

  lemma ClockRead(s: string) returns (c: Clock)
    requires ScanTime(s).Some?
    ensures ProperClock(c) && ClockText(c) == s && ScanTime(s).value == ClockMs(c)
  {
    var s1, s2 := s[3..], s[6..];
    FieldText('T', s);
    FieldText(':', s1);
    assert s1[3..] == s2;
    if IsField(':', s2) {
      FieldText(':', s2);
      c := Clock(FieldValue(s), FieldValue(s1), Some(FieldValue(s2)), s2[3..] == "Z");
    } else {
      c := Clock(FieldValue(s), FieldValue(s1), None, s2 == "Z");
    }
    assert s == ['T'] + Padded(c.h, 2) + ([':'] + Padded(c.m, 2) + s2);
    assert ClockText(c) == s;
  }

  /** The text a scanned date was read from. */
  lemma DateRead(s: string)
    requires ScanDate(s).Some?
    ensures var r := ScanDate(s).value;
            && YearInRange(r.date.y)
            && (r.date.m.None? ==> r.date.d.None? && s == Padded(r.date.y, 4) + r.rest)
            && (r.date.m.Some? ==> 0 <= r.date.m.value)
            && (r.date.m.Some? && r.date.d.None? ==> s == Padded(r.date.y, 4) + ("-" + Padded(r.date.m.value, 2)) + r.rest)
            && (r.date.d.Some? ==> r.date.m.Some? && 0 <= r.date.d.value && s == DateText(Date(r.date.y, r.date.m.value, r.date.d.value)) + r.rest)
  {
    var y, s1 := DigitsValue(s[..4]), s[4..];
    YearText(s[..4]);
    assert s == Padded(y, 4) + s1;
    if IsField('-', s1) {
      var s2 := s1[3..];
      FieldText('-', s1);
      if IsField('-', s2) {
        FieldText('-', s2);
      }
    }
  }

  lemma AcceptedIsWritten(text: string) returns (w: Written)
    requires ParseParts(text).Some?
    ensures Spells(text, w) && Proper(w)
  {
    var s := Trim(IsSpace, text);
    DateRead(s);
    var r := ScanDate(s).value;
    var y: nat := r.date.y;
    if r.date.m.None? {
      w := OfYear(y);
      assert s == Padded(y, 4) + r.rest == Padded(y, 4);
    } else if r.date.d.None? {
      w := OfMonth(y, r.date.m.value);
    } else if r.rest == "" {
      w := OfDay(y, r.date.m.value, r.date.d.value);
    } else {
      var c := ClockRead(r.rest);
      w := At(y, r.date.m.value, r.date.d.value, c);
    }
  }

  lemma IsoOfParts(text: string, spec: DateSpec, time: int, ms: int)
    requires ParseParts(text) == Some(Instant(spec, time)) && StartMs(spec) + time == ms
    ensures ParseIso(text) == Some(ms)
  {
  }

  predicate Denotes(w: Written, ms: int) {
    Proper(w) && InstantOf(w) == ms
  }

  lemma DenotesParts(w: Written, ms: int)
    requires Denotes(w, ms)
    ensures Proper(w) && StartMs(SpecOf(w)) + TimeOf(w) == ms
  {
  }

  lemma WrittenIsRead(text: string, w: Written, ms: int)
    requires Spells(text, w) && Denotes(w, ms)
    ensures ParseIso(text) == Some(ms)
  {
    DenotesParts(w, ms);
    WrittenIsAccepted(text, w);
    IsoOfParts(text, SpecOf(w), TimeOf(w), ms);
  }

  lemma ReadIsWritten(text: string, ms: int)
    requires ParseIso(text) == Some(ms)
    ensures exists w :: Spells(text, w) && Denotes(w, ms)
  {
    var w := AcceptedIsWritten(text);
    WrittenIsAccepted(text, w);
    IsoOfParts(text, SpecOf(w), TimeOf(w), InstantOf(w));
    assert Denotes(w, ms);
  }

  /** `parse_iso_instant` reads a text as `ms` if and only if, white space around it aside, it is
      a year, a month, a day, or a day with a time, of a date and time that exist in the years
      1970 to 2099, and `ms` is its first millisecond. */
  lemma ParsedExactly(text: string, ms: int)
    ensures ParseIso(text) == Some(ms) <==> exists w :: Spells(text, w) && Denotes(w, ms)
  {
    if ParseIso(text) == Some(ms) {
      ReadIsWritten(text, ms);
    }
    forall w | Spells(text, w) && Denotes(w, ms) ensures ParseIso(text) == Some(ms) {
      WrittenIsRead(text, w, ms);
    }
  }
}
