/** Gregorian day arithmetic: the parser's closed form, the printer's closed form, and the
    day-by-day calendar they both have to agree with (crates/topodb-json/src/temporal.rs,
    crates/topodb-cli/src/output.rs). */
module Calendar {

  datatype Date = Date(y: int, m: int, d: int)

  function DaysInMonth(y: int, m: int): int {
    if m in {1, 3, 5, 7, 8, 10, 12} then 31
    else if m in {4, 6, 9, 11} then 30
    else if IsLeap(y) then 29
    else 28
  }

  predicate IsLeap(y: int) {
    (y % 4 == 0 && y % 100 != 0) || y % 400 == 0
  }

  predicate IsDate(x: Date) {
    1 <= x.m <= 12 && 1 <= x.d <= DaysInMonth(x.y, x.m)
  }

  /** Division as the source has it, truncating toward zero. */
  function Quot(a: int, b: int): int
    requires b > 0
  {
    if a >= 0 then a / b else -((-a) / b)
  }

  /** `days_from_civil`: days since 1970-01-01. */
  function DaysFromCivil(x: Date): int {
    var y := if x.m <= 2 then x.y - 1 else x.y;
    var era := Quot(y, 400);
    var yoe := y - era * 400;
    var mp := if x.m > 2 then x.m - 3 else x.m + 9;
    var doy := Quot(153 * mp + 2, 5) + x.d - 1;
    var doe := yoe * 365 + Quot(yoe, 4) - Quot(yoe, 100) + doy;
    era * 146097 + doe - 719468
  }

  /** The date part of `iso_utc`. */
  function CivilFromDays(days: int): Date {
    var z := days + 719468;
    var era := z / 146097;
    var doe := z - era * 146097;
    var yoe := YearOfEra(doe);
    var doy := doe - (365 * yoe + yoe / 4 - yoe / 100);
    var mp := Quot(5 * doy + 2, 153);
    var d := doy - Quot(153 * mp + 2, 5) + 1;
    var m := if mp < 10 then mp + 3 else mp - 9;
    Date(if m <= 2 then yoe + era * 400 + 1 else yoe + era * 400, m, d)
  }

  function YearOfEra(doe: int): int {
    Quot(doe - Quot(doe, 1460) + Quot(doe, 36524) - Quot(doe, 146096), 365)
  }

  /** The next day of the Gregorian calendar, by its month lengths. */
  function NextDay(x: Date): Date {
    if x.d < DaysInMonth(x.y, x.m) then x.(d := x.d + 1)
    else if x.m < 12 then Date(x.y, x.m + 1, 1)
    else Date(x.y + 1, 1, 1)
  }

  /** The date reached by counting `n` days one at a time from 0001-01-01. */
  function DayAt(n: nat): (x: Date)
    ensures IsDate(x) && x.y >= 1
  {
    if n == 0 then Date(1, 1, 1) else NextDay(DayAt(n - 1))
  }

  const FIRST := -719162

  /** Days before the March-based year `y`, as one formula with floor division. */
  function BeforeYear(y: int): int {
    365 * y + y / 4 - y / 100 + y / 400
  }

  lemma Quarters(era: int, yoe: int)
    requires 0 <= yoe < 400
    ensures (era * 400 + yoe) / 4 == era * 100 + yoe / 4
    ensures (era * 400 + yoe) / 100 == era * 4 + yoe / 100
    ensures (era * 400 + yoe) / 400 == era
  {
  }

  lemma EraSplit(y: int)
    ensures var era := y / 400; var yoe := y - era * 400;
            0 <= yoe < 400 && era * 146097 + yoe * 365 + yoe / 4 - yoe / 100 == BeforeYear(y)
  {
    Quarters(y / 400, y - y / 400 * 400);
  }

  lemma YearLength(y: int)
    ensures BeforeYear(y + 1) - BeforeYear(y) == 365 + (if IsLeap(y + 1) then 1 else 0)
  {
    DivStep(y, 4);
    DivStep(y, 100);
    DivStep(y, 400);
    Multiples(y + 1);
  }

  lemma DivStep(y: int, k: int)
    requires k in {4, 100, 400}
    ensures (y + 1) / k == y / k + (if (y + 1) % k == 0 then 1 else 0)
  {
  }

  lemma Multiples(y: int)
    ensures y % 100 == 0 ==> y % 4 == 0
    ensures y % 400 == 0 ==> y % 100 == 0
  {
    if y % 100 == 0 {
      assert y == 4 * (25 * (y / 100));
    }
    if y % 400 == 0 {
      assert y == 100 * (4 * (y / 400));
    }
  }

  /** The month-table part of the closed form. */
  function BeforeMonth(m: int): int {
    var mp := if m > 2 then m - 3 else m + 9;
    Quot(153 * mp + 2, 5)
  }

  /** The March-based year a date lies in. */
  function MarchYear(x: Date): int {
    if x.m <= 2 then x.y - 1 else x.y
  }

  /** The Gregorian day number of a date, before year 1 too. */
  function CivilDays(x: Date): int {
    BeforeYear(MarchYear(x)) + BeforeMonth(x.m) + x.d - 1 - 719468
  }

  lemma MonthLengths(y: int, m: int)
    requires 1 <= m <= 12
    ensures m != 2 ==> BeforeMonth(if m == 12 then 1 else m + 1) == BeforeMonth(m) + DaysInMonth(y, m)
    ensures m == 2 ==> BeforeMonth(m) == 337 && BeforeMonth(m + 1) == 0 && DaysInMonth(y, m) == if IsLeap(y) then 29 else 28
  {
  }

  /** One calendar day later is one day more, across month ends, leap days and year ends. */
  lemma NextCivilDay(x: Date)
    requires IsDate(x)
    ensures CivilDays(NextDay(x)) == CivilDays(x) + 1
  {
    MonthLengths(x.y, x.m);
    if x.m == 2 && x.d == DaysInMonth(x.y, x.m) {
      YearLength(x.y - 1);
      assert CivilDays(NextDay(x)) == BeforeYear(x.y) - 719468;
    }
  }

  /** Where the truncating divisions of `days_from_civil` do no harm: from 0000-03-01 on, and
      before it in the twelve months from March of a leap year. */
  predicate Exact(x: Date) {
    MarchYear(x) >= 0 || IsLeap(MarchYear(x))
  }

  lemma TruncatedYears(e: int, k: int)
    requires e >= 0 && 0 <= k < 400
    ensures BeforeYear(-(e * 400 + k)) ==
            -(e * 146097 + k * 365 + k / 4 - k / 100) - (if k % 4 == 0 && (k % 100 != 0 || k == 0) then 0 else 1)
  {
    if k == 0 {
      Quarters(-e, 0);
    } else {
      Quarters(-e - 1, 400 - k);
      RoundedUp(k);
    }
  }

  lemma RoundedUp(k: int)
    requires 0 < k < 400
    ensures (400 - k) / 4 == 100 - k / 4 - (if k % 4 == 0 then 0 else 1)
    ensures (400 - k) / 100 == 4 - k / 100 - (if k % 100 == 0 then 0 else 1)
    ensures k % 100 == 0 ==> k % 4 == 0
  {
  }

  lemma LeapOfNegated(e: int, k: int)
    requires 0 <= k < 400
    ensures IsLeap(-(e * 400 + k)) <==> k % 4 == 0 && (k % 100 != 0 || k == 0)
  {
    if k == 0 {
      EraResidues(-e, 0);
    } else {
      EraResidues(-e - 1, 400 - k);
      RoundedUp(k);
    }
  }

  /** `days_from_civil` is the Gregorian day number exactly where `Exact` holds, and one more
      everywhere else. */
  lemma DaysFromCivilExact(x: Date)
    requires 1 <= x.m <= 12
    ensures DaysFromCivil(x) == CivilDays(x) + (if Exact(x) then 0 else 1)
  {
    var y := MarchYear(x);
    if y >= 0 {
      EraSplit(y);
    } else {
      TruncatedEra(y);
    }
  }

  lemma TruncatedEra(y: int)
    requires y < 0
    ensures var era := Quot(y, 400); var yoe := y - era * 400;
            era * 146097 + yoe * 365 + Quot(yoe, 4) - Quot(yoe, 100) == BeforeYear(y) + (if IsLeap(y) then 0 else 1)
  {
    var e, k := (-y) / 400, (-y) % 400;
    assert y == -(e * 400 + k);
    TruncatedYears(e, k);
    LeapOfNegated(e, k);
  }

  /** So it steps by one from a day to the next unless `Exact` begins or ends between them;
      it always does in the common era. */
  lemma NextDayAddsOne(x: Date)
    requires IsDate(x)
    ensures DaysFromCivil(NextDay(x)) == DaysFromCivil(x) + 1 <==> (Exact(x) <==> Exact(NextDay(x)))
    ensures x.y >= 1 ==> DaysFromCivil(NextDay(x)) == DaysFromCivil(x) + 1
  {
    DaysFromCivilExact(x);
    DaysFromCivilExact(NextDay(x));
    NextCivilDay(x);
  }

  /** `days_from_civil` is the day-by-day count, for every date of the common era. */
  lemma {:induction false} DaysCountEachDay(n: nat)
    ensures DaysFromCivil(DayAt(n)) == n + FIRST
  {
    if n > 0 {
      DaysCountEachDay(n - 1);
      NextDayAddsOne(DayAt(n - 1));
    }
  }

  lemma CenturyOf(c: int, q: int, r: int, doy: int)
    requires 0 <= c <= 3 && 0 <= q <= 24 && 0 <= r <= 3 && 0 <= doy <= 365
    requires doy == 365 ==> r == 3 && (q < 24 || c == 3)
    ensures var doe := 36524 * c + 1461 * q + 365 * r + doy; doe / 36524 - doe / 146096 == c
  {
    var doe := 36524 * c + 1461 * q + 365 * r + doy;
    if c == 3 && q == 24 && r == 3 && doy == 365 {
      assert doe == 146096;
    } else {
      assert doe < 146096;
      assert 1461 * q + 365 * r + doy < 36524;
    }
  }

  /** Years of an era by century, four-year cycle and year: the correction terms cancel. */
  lemma YearOfEraExact(c: int, q: int, r: int, doy: int)
    requires 0 <= c <= 3 && 0 <= q <= 24 && 0 <= r <= 3 && 0 <= doy <= 365
    requires doy == 365 ==> r == 3 && (q < 24 || c == 3)
    ensures var doe := 36524 * c + 1461 * q + 365 * r + doy;
            0 <= doe < 146097 && YearOfEra(doe) == 100 * c + 4 * q + r
  {
    var doe := 36524 * c + 1461 * q + 365 * r + doy;
    var e := if 24 * c + q + 365 * r + doy >= 1460 then 1 else 0;
    assert doe / 1460 == 25 * c + q + e;
    CenturyOf(c, q, r, doy);
    assert doe - doe / 1460 + doe / 36524 - doe / 146096 == 365 * (100 * c + 4 * q + r) + doy - e;
    assert 0 <= doy - e < 365;
  }

  /** The day of a March-based year, before month and day are read off it. */
  function DayOfYear(x: Date): int {
    BeforeMonth(x.m) + x.d - 1
  }

  lemma DayOfYearRange(x: Date)
    requires IsDate(x)
    ensures 0 <= DayOfYear(x) <= 365
    ensures DayOfYear(x) == 365 ==> x.m == 2 && IsLeap(x.y)
    ensures var mp := Quot(5 * DayOfYear(x) + 2, 153); mp == if x.m > 2 then x.m - 3 else x.m + 9
  {
  }

  lemma ResidueKept(d: int, m: int, k: int, j: int)
    requires d > 0 && j == (d * m + k) / d - m - k / d
    requires d * j == k % d - (d * m + k) % d
    ensures (d * m + k) % d == k % d
  {
    assert j > 0 ==> d * j >= d;
    assert j < 0 ==> d * j <= -d;
  }

  lemma Residues(m: int, k: int)
    ensures (4 * m + k) % 4 == k % 4
    ensures (100 * m + k) % 100 == k % 100
    ensures (400 * m + k) % 400 == k % 400
  {
    ResidueKept(4, m, k, (4 * m + k) / 4 - m - k / 4);
    ResidueKept(100, m, k, (100 * m + k) / 100 - m - k / 100);
    ResidueKept(400, m, k, (400 * m + k) / 400 - m - k / 400);
  }

  lemma EraResidues(era: int, k: int)
    ensures (era * 400 + k) % 4 == k % 4 && (era * 400 + k) % 100 == k % 100 && (era * 400 + k) % 400 == k % 400
  {
    Residues(100 * era, k);
    Residues(4 * era, k);
    Residues(era, k);
  }

  /** Which years of an era precede a leap February. */
  lemma LeapShape(era: int, c: int, q: int, r: int)
    requires 0 <= c <= 3 && 0 <= q <= 24 && 0 <= r <= 3
    requires IsLeap(era * 400 + (100 * c + 4 * q + r + 1))
    ensures r == 3 && (q < 24 || c == 3)
  {
    EraResidues(era, 100 * c + 4 * q + r + 1);
  }

  lemma YearDigits(yoe: int)
    requires 0 <= yoe < 400
    ensures var c, q, r := yoe / 100, yoe % 100 / 4, yoe % 4;
            && 0 <= c <= 3 && 0 <= q <= 24 && 0 <= r <= 3
            && yoe == 100 * c + 4 * q + r && yoe / 4 == 25 * c + q
  {
  }

  lemma EraOf(era: int, doe: int)
    requires 0 <= doe < 146097
    ensures (era * 146097 + doe) / 146097 == era
  {
  }

  lemma Fields(x: Date) returns (era: int, yoe: int, doy: int, doe: int)
    requires IsDate(x)
    ensures 0 <= yoe < 400 && era * 400 + yoe == MarchYear(x)
    ensures doe == yoe * 365 + yoe / 4 - yoe / 100 + doy && doy == DayOfYear(x)
    ensures Quot(5 * doy + 2, 153) == if x.m > 2 then x.m - 3 else x.m + 9
    ensures YearOfEra(doe) == yoe && (era * 146097 + doe) / 146097 == era
  {
    era := MarchYear(x) / 400;
    yoe := MarchYear(x) - era * 400;
    doy := DayOfYear(x);
    DayOfYearRange(x);
    doe := yoe * 365 + yoe / 4 - yoe / 100 + doy;
    EraDay(era, yoe, doy);
    EraOf(era, doe);
  }

  /** The year of the era is read off its day, the extra day of a leap February included. */
  lemma EraDay(era: int, yoe: int, doy: int)
    requires 0 <= yoe < 400 && 0 <= doy <= 365 && (doy == 365 ==> IsLeap(era * 400 + yoe + 1))
    ensures var doe := yoe * 365 + yoe / 4 - yoe / 100 + doy; 0 <= doe < 146097 && YearOfEra(doe) == yoe
  {
    YearDigits(yoe);
    var c, q, r := yoe / 100, yoe % 100 / 4, yoe % 4;
    if doy == 365 {
      LeapShape(era, c, q, r);
    }
    YearOfEraExact(c, q, r, doy);
  }

  /** The printer's conversion undoes the day number, in every year. */
  lemma CivilOfDays(x: Date)
    requires IsDate(x)
    ensures CivilFromDays(CivilDays(x)) == x
  {
    var days := DayNumber(x);
  }

  lemma DayNumber(x: Date) returns (days: int)
    requires IsDate(x)
    ensures CivilDays(x) == days && CivilFromDays(days) == x
  {
    var era, yoe, doy, doe := Fields(x);
    days := era * 146097 + doe - 719468;
    Assembled(x, era, yoe, doy, doe);
    Disassembled(x, era, yoe, doy, doe);
  }

  /** The printer's conversion undoes the parser's exactly where the latter is right; elsewhere
      it gives the next day. */
  lemma CivilInverse(x: Date)
    requires IsDate(x)
    ensures CivilFromDays(DaysFromCivil(x)) == if Exact(x) then x else NextDay(x)
    ensures CivilFromDays(DaysFromCivil(x)) == x <==> Exact(x)
  {
    DaysFromCivilExact(x);
    if Exact(x) {
      CivilOfDays(x);
    } else {
      NextCivilDay(x);
      CivilOfDays(NextDay(x));
    }
  }

  lemma Assembled(x: Date, era: int, yoe: int, doy: int, doe: int)
    requires 0 <= yoe < 400 && era * 400 + yoe == MarchYear(x)
    requires doe == yoe * 365 + yoe / 4 - yoe / 100 + doy && doy == DayOfYear(x)
    ensures CivilDays(x) == era * 146097 + doe - 719468
  {
    Quarters(era, yoe);
  }

  lemma Disassembled(x: Date, era: int, yoe: int, doy: int, doe: int)
    requires 1 <= x.m <= 12 && era * 400 + yoe == MarchYear(x)
    requires doe == yoe * 365 + yoe / 4 - yoe / 100 + doy
    requires doy == DayOfYear(x) && Quot(5 * doy + 2, 153) == if x.m > 2 then x.m - 3 else x.m + 9
    requires YearOfEra(doe) == yoe && (era * 146097 + doe) / 146097 == era
    ensures CivilFromDays(era * 146097 + doe - 719468) == x
  {
    var mp := if x.m > 2 then x.m - 3 else x.m + 9;
    assert Quot(153 * mp + 2, 5) == BeforeMonth(x.m);
    assert (era * 146097 + doe - 719468) + 719468 == era * 146097 + doe;
  }

  /** So the two closed forms, in two crates, are inverse, and both are the plain calendar. */
  lemma CivilCountsEachDay(n: nat)
    ensures CivilFromDays(n + FIRST) == DayAt(n)
    ensures DaysFromCivil(CivilFromDays(n + FIRST)) == n + FIRST
  {
    DaysCountEachDay(n);
    CivilInverse(DayAt(n));
  }

  /** Calendar order of dates. */
  predicate Before(a: Date, b: Date) {
    a.y < b.y || (a.y == b.y && (a.m < b.m || (a.m == b.m && a.d < b.d)))
  }

  lemma {:induction false} LaterDays(i: nat, j: nat)
    requires i < j
    ensures Before(DayAt(i), DayAt(j))
    decreases j
  {
    if i < j - 1 {
      LaterDays(i, j - 1);
    }
  }

  lemma {:induction false} MonthNotEarlier(y: int, m: int)
    requires y >= 1 && 1 <= m <= 12
    ensures DaysFromCivil(Date(y, m, 1)) >= FIRST
    decreases 12 * y + m
  {
    if m > 1 {
      MonthNotEarlier(y, m - 1);
      DayStretch(Date(y, m - 1, 1), DaysInMonth(y, m - 1));
      NextDayAddsOne(Date(y, m - 1, DaysInMonth(y, m - 1)));
    } else if y > 1 {
      MonthNotEarlier(y - 1, 12);
      DayStretch(Date(y - 1, 12, 1), 31);
      NextDayAddsOne(Date(y - 1, 12, 31));
    }
  }

  lemma DayStretch(x: Date, d: int)
    requires x.d == 1
    ensures DaysFromCivil(x.(d := d)) == DaysFromCivil(x) + d - 1
  {
  }

  lemma NotBeforeFirst(x: Date)
    requires IsDate(x) && x.y >= 1
    ensures DaysFromCivil(x) >= FIRST
  {
    MonthNotEarlier(x.y, x.m);
    DayStretch(Date(x.y, x.m, 1), x.d);
  }

  /** Day numbers order dates as the calendar does. */
  lemma OrderPreserved(a: Date, b: Date)
    requires IsDate(a) && IsDate(b) && a.y >= 1 && b.y >= 1
    ensures DaysFromCivil(a) < DaysFromCivil(b) <==> Before(a, b)
  {
    NotBeforeFirst(a);
    NotBeforeFirst(b);
    var i, j := DaysFromCivil(a) - FIRST, DaysFromCivil(b) - FIRST;
    CivilCountsEachDay(i);
    CivilCountsEachDay(j);
    CivilInverse(a);
    CivilInverse(b);
    if i < j {
      LaterDays(i, j);
    } else if j < i {
      LaterDays(j, i);
    }
  }
}
