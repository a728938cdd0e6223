/** Date periods and the time bounds a temporal phrase turns into
    (crates/topodb-json/src/temporal.rs). */
module Temporal {
  import opened Text
  import opened Calendar

  const DAY_MS := 86_400_000

  datatype DateSpec =
    | Day(y: int, m: int, d: int)
    | Month(y: int, m: int)
    | Year(y: int)

  /** The captured groups of one date: the pattern bounds the year, not the month or the day. */
  datatype Captured = Captured(y: int, m: Option<int>, d: Option<int>)

  predicate YearInRange(y: int) { 1970 <= y <= 2099 }

  /** `DateSpec::read`: none for a month or day the calendar does not have. */
  function Read(c: Captured): (r: Option<DateSpec>)
    ensures r.Some? ==> ValidSpec(r.value) && r.value.y == c.y
  {
    if c.m.None? then Some(Year(c.y))
    else if !(1 <= c.m.value <= 12) then None
    else if c.d.None? then Some(Month(c.y, c.m.value))
    else if 1 <= c.d.value <= DaysInMonth(c.y, c.m.value) then Some(Day(c.y, c.m.value, c.d.value))
    else None
  }

  predicate ValidSpec(s: DateSpec) {
    match s
    case Day(y, m, d) => IsDate(Date(y, m, d))
    case Month(y, m) => 1 <= m <= 12
    case Year(y) => true
  }

  function StartMs(s: DateSpec): int {
    match s
    case Day(y, m, d) => DaysFromCivil(Date(y, m, d)) * DAY_MS
    case Month(y, m) => DaysFromCivil(Date(y, m, 1)) * DAY_MS
    case Year(y) => DaysFromCivil(Date(y, 1, 1)) * DAY_MS
  }

  function EndMs(s: DateSpec): int {
    match s
    case Day(y, m, d) => (DaysFromCivil(Date(y, m, d)) + 1) * DAY_MS
    case Month(y, m) =>
      if m == 12 then DaysFromCivil(Date(y + 1, 1, 1)) * DAY_MS else DaysFromCivil(Date(y, m + 1, 1)) * DAY_MS
    case Year(y) => DaysFromCivil(Date(y + 1, 1, 1)) * DAY_MS
  }

  /** The calendar date on which the instant `t` falls, by counting days. */
  function DateOf(t: int): Date
    requires t >= FIRST * DAY_MS
  {
    DayAt(t / DAY_MS - FIRST)
  }

  /** Whether a calendar date lies in a period, read off its fields. */
  predicate DateIn(x: Date, s: DateSpec) {
    match s
    case Day(y, m, d) => x == Date(y, m, d)
    case Month(y, m) => x.y == y && x.m == m
    case Year(y) => x.y == y
  }

  lemma InstantAtOrAfter(t: int, x: Date)
    requires t >= FIRST * DAY_MS && IsDate(x) && x.y >= 1
    ensures DaysFromCivil(x) * DAY_MS <= t <==> !Before(DateOf(t), x)
  {
    var n := t / DAY_MS - FIRST;
    DaysCountEachDay(n);
    OrderPreserved(DateOf(t), x);
  }

  function FirstDay(s: DateSpec): Date {
    match s
    case Day(y, m, d) => Date(y, m, d)
    case Month(y, m) => Date(y, m, 1)
    case Year(y) => Date(y, 1, 1)
  }

  /** The first day after the period. */
  function DayAfter(s: DateSpec): Date {
    match s
    case Day(y, m, d) => NextDay(Date(y, m, d))
    case Month(y, m) => if m == 12 then Date(y + 1, 1, 1) else Date(y, m + 1, 1)
    case Year(y) => Date(y + 1, 1, 1)
  }

  /** The half-open interval of a day, month or year holds exactly the instants whose calendar
      date lies in it. So days partition months, months partition years, and years partition
      time. */
  lemma PeriodIsItsDates(s: DateSpec, t: int)
    requires ValidSpec(s) && s.y >= 1 && t >= FIRST * DAY_MS
    ensures StartMs(s) <= t < EndMs(s) <==> DateIn(DateOf(t), s)
  {
    if s.Day? {
      NextDayAddsOne(FirstDay(s));
    }
    InstantAtOrAfter(t, FirstDay(s));
    InstantAtOrAfter(t, DayAfter(s));
    assert DaysFromCivil(FirstDay(s)) * DAY_MS == StartMs(s);
    assert DaysFromCivil(DayAfter(s)) * DAY_MS == EndMs(s);
    BetweenDays(DateOf(t), s);
  }

  lemma BetweenDays(x: Date, s: DateSpec)
    requires IsDate(x) && ValidSpec(s)
    ensures !Before(x, FirstDay(s)) && Before(x, DayAfter(s)) <==> DateIn(x, s)
  {
  }

  /** The next period of the same kind. */
  function NextSpec(s: DateSpec): (r: DateSpec)
    ensures ValidSpec(s) ==> ValidSpec(r)
  {
    match s
    case Day(y, m, d) => var x := NextDay(Date(y, m, d)); Day(x.y, x.m, x.d)
    case Month(y, m) => if m == 12 then Month(y + 1, 1) else Month(y, m + 1)
    case Year(y) => Year(y + 1)
  }

  /** Consecutive periods meet: no gap, no overlap, none empty. */
  lemma PeriodsTile(s: DateSpec)
    requires ValidSpec(s) && s.y >= 1
    ensures EndMs(s) == StartMs(NextSpec(s)) && StartMs(s) < EndMs(s)
  {
    if s.Day? {
      NextDayAddsOne(FirstDay(s));
    } else {
      OrderPreserved(FirstDay(s), DayAfter(s));
    }
  }

  datatype Phrase =
    | Between(a: Captured, b: Captured)
    | BeforeDate(c: Captured)
    | AfterDate(c: Captured)
    | LastNDays(n: nat)
    | Relative(word: string)
    | BareDate(preposition: bool, c: Captured)

  datatype Bounds = Bounds(after: Option<int>, before: Option<int>)

  /** The years a pattern can capture. */
  predicate Capturable(p: Phrase) {
    match p
    case Between(a, b) => YearInRange(a.y) && YearInRange(b.y)
    case BeforeDate(c) => YearInRange(c.y)
    case AfterDate(c) => YearInRange(c.y)
    case BareDate(_, c) => YearInRange(c.y)
    case _ => true
  }

  /** The bounds of `parse_temporal_query` for the phrase its first matching rule captured;
      `word` is lower-cased with single spaces. */
  function BoundsOf(p: Phrase, now: int): Option<Bounds> {
    var today := now / DAY_MS * DAY_MS;
    match p
    case Between(a, b) =>
      var x, y := Read(a), Read(b);
      if x.None? || y.None? || StartMs(x.value) >= EndMs(y.value) then None
      else Some(Bounds(Some(StartMs(x.value)), Some(EndMs(y.value))))
    case BeforeDate(c) =>
      var x := Read(c);
      if x.None? then None else Some(Bounds(None, Some(StartMs(x.value))))
    case AfterDate(c) =>
      var x := Read(c);
      if x.None? then None else Some(Bounds(Some(StartMs(x.value)), None))
    case LastNDays(n) => if n == 0 then None else Some(Bounds(Some(today - n * DAY_MS), None))
    case Relative(word) =>
      if word == "yesterday" then Some(Bounds(Some(today - DAY_MS), Some(today)))
      else if word == "today" then Some(Bounds(Some(today), Some(today + DAY_MS)))
      else if word == "last week" then Some(Bounds(Some(today - 7 * DAY_MS), None))
      else if word == "last month" then Some(Bounds(Some(today - 30 * DAY_MS), None))
      else None
    case BareDate(preposition, c) =>
      var x := Read(c);
      if x.None? || (x.value.Year? && !preposition) then None
      else Some(Bounds(Some(StartMs(x.value)), Some(EndMs(x.value))))
  }

  predicate Within(t: int, b: Bounds) {
    (b.after.Some? ==> b.after.value <= t) && (b.before.Some? ==> t < b.before.value)
  }

  /** Every rewrite with both bounds denotes a non-empty interval. */
  lemma BothBoundsNonEmpty(p: Phrase, now: int)
    requires Capturable(p) && BoundsOf(p, now).Some?
    ensures var b := BoundsOf(p, now).value; b.after.Some? && b.before.Some? ==> b.after.value < b.before.value
  {
    if p.BareDate? {
      PeriodsTile(Read(p.c).value);
    }
  }

  lemma FromStart(s: DateSpec, t: int)
    requires ValidSpec(s) && s.y >= 1 && t >= FIRST * DAY_MS
    ensures StartMs(s) <= t <==> !Before(DateOf(t), FirstDay(s))
  {
    InstantAtOrAfter(t, FirstDay(s));
  }

  lemma UpToEnd(s: DateSpec, t: int)
    requires ValidSpec(s) && s.y >= 1 && t >= FIRST * DAY_MS
    ensures t < EndMs(s) <==> Before(DateOf(t), DayAfter(s))
  {
    InstantAtOrAfter(t, DayAfter(s));
    EndIsDayAfter(s);
  }

  /** What a dated phrase selects, in calendar terms: `before` ends ahead of the period, `after`
      starts with it, a bare date is the period, and `between` runs from the first day of the
      first to the last day of the second. */
  predicate Selects(p: Phrase, x: Date)
    requires Dated(p)
  {
    match p
    case Between(a, b) => !Before(x, FirstDay(Read(a).value)) && Before(x, DayAfter(Read(b).value))
    case BeforeDate(c) => Before(x, FirstDay(Read(c).value))
    case AfterDate(c) => !Before(x, FirstDay(Read(c).value))
    case BareDate(_, c) => DateIn(x, Read(c).value)
    case _ => false
  }

  predicate Dated(p: Phrase) {
    match p
    case Between(a, b) => Read(a).Some? && Read(b).Some?
    case BeforeDate(c) => Read(c).Some?
    case AfterDate(c) => Read(c).Some?
    case BareDate(_, c) => Read(c).Some?
    case _ => false
  }

  lemma DatedBounds(p: Phrase, now: int, t: int)
    requires Capturable(p) && Dated(p) && t >= FIRST * DAY_MS && BoundsOf(p, now).Some?
    ensures Within(t, BoundsOf(p, now).value) <==> Selects(p, DateOf(t))
  {
    if p.Between? {
      DatedBetween(p, now, t, Read(p.a).value, Read(p.b).value);
    } else if p.BareDate? {
      DatedBare(p, now, t, Read(p.c).value);
    } else {
      OneSidedMeans(p, now, t, Read(p.c).value);
    }
  }

  lemma DatedBetween(p: Phrase, now: int, t: int, x: DateSpec, y: DateSpec)
    requires p.Between? && Capturable(p) && Read(p.a) == Some(x) && Read(p.b) == Some(y)
    requires t >= FIRST * DAY_MS && BoundsOf(p, now).Some?
    ensures Within(t, BoundsOf(p, now).value) <==> !Before(DateOf(t), FirstDay(x)) && Before(DateOf(t), DayAfter(y))
  {
    assert x.y >= 1 && y.y >= 1;
    BetweenShape(p, now, x, y);
    WindowMeans(BoundsOf(p, now).value, x, y, t);
  }

  lemma DatedBare(p: Phrase, now: int, t: int, x: DateSpec)
    requires p.BareDate? && Capturable(p) && Read(p.c) == Some(x)
    requires t >= FIRST * DAY_MS && BoundsOf(p, now).Some?
    ensures Within(t, BoundsOf(p, now).value) <==> DateIn(DateOf(t), x)
  {
    BareMeans(p, now, t, x);
    PeriodIsItsDates(x, t);
  }

  lemma WindowMeans(b: Bounds, x: DateSpec, y: DateSpec, t: int)
    requires ValidSpec(x) && ValidSpec(y) && x.y >= 1 && y.y >= 1 && t >= FIRST * DAY_MS
    requires b == Bounds(Some(StartMs(x)), Some(EndMs(y)))
    ensures Within(t, b) <==> !Before(DateOf(t), FirstDay(x)) && Before(DateOf(t), DayAfter(y))
  {
    FromStart(x, t);
    UpToEnd(y, t);
  }

  lemma BetweenShape(p: Phrase, now: int, x: DateSpec, y: DateSpec)
    requires p.Between? && Read(p.a) == Some(x) && Read(p.b) == Some(y) && BoundsOf(p, now).Some?
    ensures BoundsOf(p, now).value == Bounds(Some(StartMs(x)), Some(EndMs(y)))
  {
  }

  lemma BareMeans(p: Phrase, now: int, t: int, x: DateSpec)
    requires p.BareDate? && Read(p.c) == Some(x) && BoundsOf(p, now).Some?
    ensures Within(t, BoundsOf(p, now).value) <==> StartMs(x) <= t < EndMs(x)
  {
    var lo, hi := StartMs(x), EndMs(x);
    assert BoundsOf(p, now) == Some(Bounds(Some(lo), Some(hi)));
  }

  lemma OneSidedMeans(p: Phrase, now: int, t: int, x: DateSpec)
    requires (p.BeforeDate? || p.AfterDate?) && Capturable(p) && Read(p.c) == Some(x) && t >= FIRST * DAY_MS
    ensures BoundsOf(p, now).Some?
    ensures Within(t, BoundsOf(p, now).value) <==>
            if p.BeforeDate? then Before(DateOf(t), FirstDay(x)) else !Before(DateOf(t), FirstDay(x))
  {
    FromStart(x, t);
  }

  lemma SameDay(i: nat, j: nat)
    ensures DayAt(i) == DayAt(j) <==> i == j
  {
    if i < j {
      LaterDays(i, j);
    } else if j < i {
      LaterDays(j, i);
    }
  }

  /** What a relative phrase selects: today's date, the date before it, or everything from so
      many days back on, a week being seven and a month thirty. */
  lemma RelativeBounds(now: int, t: int, n: nat)
    requires now >= FIRST * DAY_MS && t >= FIRST * DAY_MS && n > 0
    ensures Within(t, BoundsOf(Relative("today"), now).value) <==> DateOf(t) == DateOf(now)
    ensures Within(t, BoundsOf(Relative("yesterday"), now).value) <==> NextDay(DateOf(t)) == DateOf(now)
    ensures Within(t, BoundsOf(LastNDays(n), now).value) <==> now / DAY_MS - t / DAY_MS <= n
    ensures BoundsOf(Relative("last week"), now) == BoundsOf(LastNDays(7), now)
    ensures BoundsOf(Relative("last month"), now) == BoundsOf(LastNDays(30), now)
  {
    var i, j := t / DAY_MS - FIRST, now / DAY_MS - FIRST;
    SameDay(i, j);
    SameDay(i + 1, j);
    assert DayAt(i + 1) == NextDay(DayAt(i));
    DayBounds(t, now / DAY_MS);
    DayBounds(t, now / DAY_MS - 1);
    DayBounds(t, now / DAY_MS - n);
  }

  lemma DayBounds(t: int, day: int)
    ensures day * DAY_MS <= t <==> day <= t / DAY_MS
    ensures t < (day + 1) * DAY_MS <==> t / DAY_MS <= day
  {
  }

  lemma EndIsDayAfter(s: DateSpec)
    requires ValidSpec(s) && s.y >= 1
    ensures EndMs(s) == DaysFromCivil(DayAfter(s)) * DAY_MS
  {
    if s.Day? {
      NextDayAddsOne(FirstDay(s));
    }
  }

  lemma BetweenRefusal(a: Captured, b: Captured, now: int)
    requires Capturable(Between(a, b)) && Read(a).Some? && Read(b).Some?
    ensures BoundsOf(Between(a, b), now).None? <==> !Before(FirstDay(Read(a).value), DayAfter(Read(b).value))
  {
    var x, y := FirstDay(Read(a).value), DayAfter(Read(b).value);
    EndIsDayAfter(Read(b).value);
    OrderPreserved(x, y);
  }

  /** A captured year is the year; with a month, that month if there is one; with a day too,
      that day if the month has it. */
  lemma ReadWhen(c: Captured)
    ensures c.m.None? ==> Read(c) == Some(Year(c.y))
    ensures c.m.Some? && c.d.None? ==> Read(c) == if 1 <= c.m.value <= 12 then Some(Month(c.y, c.m.value)) else None
    ensures c.m.Some? && c.d.Some? ==>
              Read(c) == if IsDate(Date(c.y, c.m.value, c.d.value)) then Some(Day(c.y, c.m.value, c.d.value)) else None
  {
  }

  /** The capture names a year, a month or a day that exists. */
  predicate Exists(c: Captured) {
    c.m.Some? ==> 1 <= c.m.value <= 12 && (c.d.Some? ==> 1 <= c.d.value <= DaysInMonth(c.y, c.m.value))
  }

  /** Exactly these phrases are rewritten: dates that exist, in order for `between`; a bare
      year only behind a preposition; a positive number of days; the four fixed phrases. And
      which side is left open. */
  lemma RewrittenWhen(p: Phrase, now: int)
    requires Capturable(p)
    ensures BoundsOf(p, now).Some? <==>
            match p
            case Between(a, b) => Exists(a) && Exists(b) && Before(FirstDay(Read(a).value), DayAfter(Read(b).value))
            case BeforeDate(c) => Exists(c)
            case AfterDate(c) => Exists(c)
            case LastNDays(n) => n > 0
            case Relative(word) => word in {"yesterday", "today", "last week", "last month"}
            case BareDate(preposition, c) => Exists(c) && (c.m.Some? || preposition)
    ensures BoundsOf(p, now).Some? ==>
              && (BoundsOf(p, now).value.after.None? <==> p.BeforeDate?)
              && (BoundsOf(p, now).value.before.None? <==>
                    p.AfterDate? || p.LastNDays? || (p.Relative? && p.word in {"last week", "last month"}))
  {
    if p.Between? && Exists(p.a) && Exists(p.b) {
      BetweenRefusal(p.a, p.b, now);
    }
  }
}
