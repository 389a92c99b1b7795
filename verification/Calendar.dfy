/** Civil dates and day counts (src/time_util.rs): the proleptic Gregorian
    calendar over all integers. */
module Calendar {
  /** Division that truncates towards zero. */
  function TDiv(a: int, b: int): int
    requires b > 0
  {
    if a >= 0 then a / b else -(-a / b)
  }

  datatype Date = Date(year: int, month: int, day: int)

  // ---- The calendar itself.

  predicate IsLeap(y: int) { y % 4 == 0 && (y % 100 != 0 || y % 400 == 0) }

  function DaysInMonth(y: int, m: int): int
    requires 1 <= m <= 12
  {
    if m == 2 then (if IsLeap(y) then 29 else 28)
    else if m == 4 || m == 6 || m == 9 || m == 11 then 30
    else 31
  }

  predicate ValidDate(t: Date)
  {
    1 <= t.month <= 12 && 1 <= t.day <= DaysInMonth(t.year, t.month)
  }

  /** The day after. */
  function Tomorrow(t: Date): (r: Date)
    requires ValidDate(t)
    ensures ValidDate(r)
  {
    if t.day < DaysInMonth(t.year, t.month) then Date(t.year, t.month, t.day + 1)
    else if t.month < 12 then Date(t.year, t.month + 1, 1)
    else Date(t.year + 1, 1, 1)
  }

  // ---- The conversions, with the year starting in March.

  function DaysFromCivil(t: Date): int
    requires 1 <= t.month <= 12
  {
    var y := if t.month <= 2 then t.year - 1 else t.year;
    var era := TDiv(if y >= 0 then y else y - 399, 400);
    var yoe := y - era * 400;
    var mp := (t.month + 9) % 12;
    var doy := TDiv(153 * mp + 2, 5) + t.day - 1;
    var doe := yoe * 365 + TDiv(yoe, 4) - TDiv(yoe, 100) + doy;
    era * 146_097 + doe - 719_468
  }

  function CivilFromDays(days: int): Date
  {
    var z := days + 719_468;
    var era := TDiv(if z >= 0 then z else z - 146_096, 146_097);
    var doe := z - era * 146_097;
    var yoe := TDiv(doe - TDiv(doe, 1460) + TDiv(doe, 36_524) - TDiv(doe, 146_096), 365);
    var y := yoe + era * 400;
    var doy := doe - (365 * yoe + TDiv(yoe, 4) - TDiv(yoe, 100));
    var mp := TDiv(5 * doy + 2, 153);
    var d := doy - TDiv(153 * mp + 2, 5) + 1;
    var m := if mp < 10 then mp + 3 else mp - 9;
    Date(if m <= 2 then y + 1 else y, m, d)
  }

  // ---- Proof, by parts of the 400-year era.

  /** The shift before a truncating division makes it a division towards
      negative infinity. */
  lemma FloorDivision(a: int, b: int)
    requires b > 0
    ensures TDiv(if a >= 0 then a else a - (b - 1), b) == a / b
  {
    if a < 0 {
      var q, r := a / b, a % b;
      assert -(a - (b - 1)) == b * -q + (b - 1 - r);
      QuotientOf(-q, b - 1 - r, b);
    }
  }

  lemma QuotientOf(q: int, r: int, b: int)
    requires 0 <= r < b
    ensures (b * q + r) / b == q && (b * q + r) % b == r
  {
    var x := b * q + r;
    var q', r' := x / b, x % b;
    assert b * (q - q') == r' - r;
    if q > q' {
      assert b * (q - q') >= b by { TimesAtLeast(b, q - q'); }
    }
    if q < q' {
      assert b * (q' - q) >= b by { TimesAtLeast(b, q' - q); }
    }
  }

  lemma TimesAtLeast(b: int, k: int)
    requires b > 0 && k >= 1
    ensures b * k >= b
  {
  }

  /** The days of an era before its year `yoe`, years starting in March. */
  function YearStart(yoe: int): int { 365 * yoe + yoe / 4 - yoe / 100 }

  /** Whether the year of the era that starts in March ends with a 29 February. */
  predicate EndsLeap(yoe: int) { IsLeap(yoe + 1) }

  predicate DayOfYear(yoe: int, doy: int)
  {
    0 <= yoe < 400 && 0 <= doy < if EndsLeap(yoe) then 366 else 365
  }

  function YearOfEra(doe: int): int { (doe - doe / 1460 + doe / 36_524 - doe / 146_096) / 365 }

  /** An era is four centuries, a century 25 spans of four years, a span four years. */
  lemma YearParts(c: int, q: int, r: int)
    requires 0 <= c < 4 && 0 <= q < 25 && 0 <= r < 4
    ensures YearStart(100 * c + 4 * q + r) == 36_524 * c + 1461 * q + 365 * r
    ensures EndsLeap(100 * c + 4 * q + r) <==> r == 3 && (q < 24 || c == 3)
  {
  }

  lemma CenturyTerm(c: int, e: int)
    requires 0 <= c < 4 && 0 <= e <= 36_524 && (e == 36_524 ==> c == 3)
    ensures var doe := 36_524 * c + e; doe / 36_524 - doe / 146_096 == c
  {
  }

  lemma SpanTerm(c: int, q: int, f: int)
    requires 0 <= c < 4 && 0 <= q < 25 && 0 <= f <= 1460
    ensures var doe := 36_524 * c + 1461 * q + f;
            doe / 1460 == 25 * c + q + if 24 * c + q + f >= 1460 then 1 else 0
  {
  }

  lemma YearOfParts(c: int, q: int, r: int, doy: int)
    requires 0 <= c < 4 && 0 <= q < 25 && 0 <= r < 4
    requires 0 <= doy < if r == 3 && (q < 24 || c == 3) then 366 else 365
    ensures YearOfEra(36_524 * c + 1461 * q + 365 * r + doy) == 100 * c + 4 * q + r
  {
    hide YearOfEra;
    CenturyTerm(c, 1461 * q + 365 * r + doy);
    SpanTerm(c, q, 365 * r + doy);
    var carry := if 24 * c + q + (365 * r + doy) >= 1460 then 1 else 0;
    YearFromTerms(36_524 * c + 1461 * q + 365 * r + doy, 25 * c + q + carry, c, 100 * c + 4 * q + r);
  }

  lemma YearFromTerms(doe: int, spans: int, centuries: int, year: int)
    requires doe / 1460 == spans && doe / 36_524 - doe / 146_096 == centuries
    requires 365 * year <= doe - spans + centuries < 365 * year + 365
    ensures YearOfEra(doe) == year
  {
  }

  /** The days of an era are its years' days, end to end. */
  lemma YearOfDay(yoe: int, doy: int)
    requires DayOfYear(yoe, doy)
    ensures 0 <= YearStart(yoe) + doy < 146_097
    ensures YearOfEra(YearStart(yoe) + doy) == yoe
  {
    hide YearOfEra, YearStart, EndsLeap;
    var c, q, r := yoe / 100, yoe % 100 / 4, yoe % 4;
    assert yoe == 100 * c + 4 * q + r;
    YearParts(c, q, r);
    YearOfParts(c, q, r, doy);
  }

  lemma DayOfEra(doe: int)
    requires 0 <= doe < 146_097
    ensures var yoe := YearOfEra(doe); DayOfYear(yoe, doe - YearStart(yoe))
  {
    hide YearOfEra, YearStart, EndsLeap;
    var c := if doe == 146_096 then 3 else doe / 36_524;
    var e := doe - 36_524 * c;
    var q := e / 1461;
    var f := e - 1461 * q;
    var r := if f == 1460 then 3 else f / 365;
    YearParts(c, q, r);
    YearOfParts(c, q, r, f - 365 * r);
  }

  function MonthStart(mp: int): int { (153 * mp + 2) / 5 }

  /** The length of month `mp`, March being 0, of a year that ends leap or not. */
  function MonthLength(mp: int, leap: bool): int
  {
    if mp == 11 then (if leap then 29 else 28) else MonthStart(mp + 1) - MonthStart(mp)
  }

  lemma MonthOfDay(mp: int, d: int, leap: bool)
    requires 0 <= mp < 12 && 1 <= d <= MonthLength(mp, leap)
    ensures var doy := MonthStart(mp) + d - 1;
            0 <= doy < (if leap then 366 else 365) && (5 * doy + 2) / 153 == mp
  {
  }

  lemma DayOfMonth(doy: int, leap: bool)
    requires 0 <= doy < if leap then 366 else 365
    ensures var mp := (5 * doy + 2) / 153;
            0 <= mp < 12 && 1 <= doy - MonthStart(mp) + 1 <= MonthLength(mp, leap)
  {
  }

  // ---- A date in terms of its era.

  datatype Parts = Parts(era: int, yoe: int, mp: int, day: int)

  predicate ValidParts(p: Parts)
  {
    0 <= p.yoe < 400 && 0 <= p.mp < 12 && 1 <= p.day <= MonthLength(p.mp, EndsLeap(p.yoe))
  }

  function PartsOf(t: Date): Parts
  {
    var y := if t.month <= 2 then t.year - 1 else t.year;
    Parts(y / 400, y % 400, (t.month + 9) % 12, t.day)
  }

  function DateOf(p: Parts): Date
  {
    var y := p.yoe + p.era * 400;
    var m := if p.mp < 10 then p.mp + 3 else p.mp - 9;
    Date(if m <= 2 then y + 1 else y, m, p.day)
  }

  function DaysOf(p: Parts): int { p.era * 146_097 + YearStart(p.yoe) + MonthStart(p.mp) + p.day - 1 - 719_468 }

  lemma LeapOfEra(era: int, yoe: int)
    requires 0 <= yoe < 400
    ensures IsLeap(yoe + era * 400 + 1) == EndsLeap(yoe)
  {
    var y := yoe + 1;
    assert yoe + era * 400 + 1 == y + 400 * era;
    SameByFour(y, era);
    SameByHundred(y, era);
    SameByFourHundred(y, era);
  }

  lemma SameByFour(y: int, era: int)
    ensures (y + 400 * era) % 4 == y % 4
  {
    assert y + 400 * era == 4 * (y / 4 + 100 * era) + y % 4;
    QuotientOf(y / 4 + 100 * era, y % 4, 4);
  }

  lemma SameByHundred(y: int, era: int)
    ensures (y + 400 * era) % 100 == y % 100
  {
    assert y + 400 * era == 100 * (y / 100 + 4 * era) + y % 100;
    QuotientOf(y / 100 + 4 * era, y % 100, 100);
  }

  lemma SameByFourHundred(y: int, era: int)
    ensures (y + 400 * era) % 400 == y % 400
  {
    assert y + 400 * era == 400 * (y / 400 + 1 * era) + y % 400;
    QuotientOf(y / 400 + 1 * era, y % 400, 400);
  }

  lemma PartsValid(t: Date)
    requires 1 <= t.month <= 12
    ensures ValidDate(t) <==> ValidParts(PartsOf(t))
    ensures DateOf(PartsOf(t)) == t
  {
    hide EndsLeap, IsLeap;
    var y := if t.month <= 2 then t.year - 1 else t.year;
    assert y == y % 400 + y / 400 * 400;
    LeapOfEra(y / 400, y % 400);
  }

  lemma DaysInParts(t: Date)
    requires 1 <= t.month <= 12
    ensures DaysFromCivil(t) == DaysOf(PartsOf(t))
  {
    FloorDivision(if t.month <= 2 then t.year - 1 else t.year, 400);
  }

  lemma DateValid(p: Parts)
    requires ValidParts(p)
    ensures ValidDate(DateOf(p)) && PartsOf(DateOf(p)) == p
  {
    var t := DateOf(p);
    var y := if t.month <= 2 then t.year - 1 else t.year;
    assert y == 400 * p.era + p.yoe;
    PartsValid(t);
  }

  lemma CivilInParts(days: int)
    ensures exists p: Parts :: ValidParts(p) && DaysOf(p) == days && CivilFromDays(days) == DateOf(p)
  {
    hide YearStart, EndsLeap, MonthStart, MonthLength;
    var z := days + 719_468;
    FloorDivision(z, 146_097);
    var era, doe := z / 146_097, z % 146_097;
    DayOfEra(doe);
    var yoe := YearOfEra(doe);
    var doy := doe - YearStart(yoe);
    DayOfMonth(doy, EndsLeap(yoe));
    var mp := (5 * doy + 2) / 153;
    var p := Parts(era, yoe, mp, doy - MonthStart(mp) + 1);
    CivilSteps(days, era, doe, yoe, doy, mp);
    assert ValidParts(p) && DaysOf(p) == days && CivilFromDays(days) == DateOf(p);
  }

  lemma PlainDivision(a: int, b: int)
    requires a >= 0 && b > 0
    ensures TDiv(a, b) == a / b
  {
  }

  lemma YearSteps(doe: int)
    requires 0 <= doe < 146_097
    ensures TDiv(doe - TDiv(doe, 1460) + TDiv(doe, 36_524) - TDiv(doe, 146_096), 365) == YearOfEra(doe)
  {
    assert doe - doe / 1460 - doe / 146_096 >= 0;
  }

  /** The steps of the conversion, with every truncated operand non-negative. */
  lemma CivilSteps(days: int, era: int, doe: int, yoe: int, doy: int, mp: int)
    requires var z := days + 719_468; era == z / 146_097 && doe == z % 146_097
    requires yoe == YearOfEra(doe) && DayOfYear(yoe, doy) && doy == doe - YearStart(yoe)
    requires mp == (5 * doy + 2) / 153 && 0 <= mp < 12
    ensures CivilFromDays(days) == DateOf(Parts(era, yoe, mp, doy - MonthStart(mp) + 1))
  {
    hide EndsLeap, YearOfEra, TDiv;
    var z := days + 719_468;
    FloorDivision(z, 146_097);
    assert doe == z - era * 146_097;
    YearSteps(doe);
    PlainDivision(yoe, 4);
    PlainDivision(yoe, 100);
    PlainDivision(5 * doy + 2, 153);
    PlainDivision(153 * mp + 2, 5);
  }

  lemma CivilOfParts(p: Parts)
    requires ValidParts(p)
    ensures CivilFromDays(DaysOf(p)) == DateOf(p)
  {
    hide YearStart, EndsLeap, MonthStart, MonthLength, CivilFromDays;
    var doy := MonthStart(p.mp) + p.day - 1;
    MonthOfDay(p.mp, p.day, EndsLeap(p.yoe));
    YearOfDay(p.yoe, doy);
    var doe := YearStart(p.yoe) + doy;
    assert DaysOf(p) + 719_468 == 146_097 * p.era + doe;
    QuotientOf(p.era, doe, 146_097);
    CivilSteps(DaysOf(p), p.era, doe, p.yoe, doy, p.mp);
  }

  // ---- The results.

  /** Every integer is the day count of a valid date, the one it converts to. */
  lemma DaysOfCivil(days: int)
    ensures ValidDate(CivilFromDays(days)) && DaysFromCivil(CivilFromDays(days)) == days
  {
    hide CivilFromDays, DaysFromCivil, DateOf, PartsOf, DaysOf;
    CivilInParts(days);
    var p: Parts :| ValidParts(p) && DaysOf(p) == days && CivilFromDays(days) == DateOf(p);
    DateValid(p);
    DaysInParts(DateOf(p));
  }

  /** Every valid date comes back from its day count. */
  lemma CivilOfDays(t: Date)
    requires ValidDate(t)
    ensures CivilFromDays(DaysFromCivil(t)) == t
  {
    hide CivilFromDays, DaysFromCivil, DateOf, PartsOf, DaysOf;
    PartsValid(t);
    DaysInParts(t);
    CivilOfParts(PartsOf(t));
  }

  function NextParts(p: Parts): Parts
  {
    if p.day < MonthLength(p.mp, EndsLeap(p.yoe)) then p.(day := p.day + 1)
    else if p.mp < 11 then Parts(p.era, p.yoe, p.mp + 1, 1)
    else if p.yoe < 399 then Parts(p.era, p.yoe + 1, 0, 1)
    else Parts(p.era + 1, 0, 0, 1)
  }

  lemma YearLength(yoe: int)
    requires 0 <= yoe < 400
    ensures (if yoe < 399 then YearStart(yoe + 1) else 146_097) - YearStart(yoe) == if EndsLeap(yoe) then 366 else 365
  {
    hide YearStart, EndsLeap;
    var c, q, r := yoe / 100, yoe % 100 / 4, yoe % 4;
    assert yoe == 100 * c + 4 * q + r;
    YearParts(c, q, r);
    if r < 3 {
      YearParts(c, q, r + 1);
    } else if q < 24 {
      YearParts(c, q + 1, 0);
    } else if c < 3 {
      YearParts(c + 1, 0, 0);
    }
  }

  lemma DaysOfNextParts(p: Parts)
    requires ValidParts(p)
    ensures DaysOf(NextParts(p)) == DaysOf(p) + 1
  {
    hide YearStart, EndsLeap;
    YearLength(p.yoe);
    assert YearStart(0) == 0 by { FirstYear(); }
  }

  lemma FirstYear()
    ensures YearStart(0) == 0
  {
  }

  lemma TomorrowInParts(t: Date)
    requires ValidDate(t)
    ensures PartsOf(Tomorrow(t)) == NextParts(PartsOf(t))
  {
    hide EndsLeap, IsLeap, PartsOf, NextParts, Tomorrow;
    if t.month == 2 { FebruaryInParts(t); } else { OtherMonthInParts(t); }
  }

  lemma FebruaryInParts(t: Date)
    requires ValidDate(t) && t.month == 2
    ensures PartsOf(Tomorrow(t)) == NextParts(PartsOf(t))
  {
    hide EndsLeap, IsLeap;
    var y := t.year - 1;
    assert y == y % 400 + y / 400 * 400;
    LeapOfEra(y / 400, y % 400);
    NextYear(y);
  }

  lemma OtherMonthInParts(t: Date)
    requires ValidDate(t) && t.month != 2
    ensures PartsOf(Tomorrow(t)) == NextParts(PartsOf(t))
  {
    hide EndsLeap, IsLeap;
    var p := PartsOf(t);
    MonthLengths(t.month);
    assert p.mp < 11 && MonthLength(p.mp, EndsLeap(p.yoe)) == DaysInMonth(t.year, t.month);
    if t.day == DaysInMonth(t.year, t.month) {
      assert (Tomorrow(t).month + 9) % 12 == p.mp + 1;
    }
  }

  lemma MonthLengths(m: int)
    requires 1 <= m <= 12 && m != 2
    ensures var mp := (m + 9) % 12;
            0 <= mp < 11 && forall y, leap :: MonthLength(mp, leap) == DaysInMonth(y, m)
  {
    hide IsLeap;
  }

  lemma NextYear(y: int)
    ensures (y + 1) / 400 == (if y % 400 == 399 then y / 400 + 1 else y / 400)
    ensures (y + 1) % 400 == (if y % 400 == 399 then 0 else y % 400 + 1)
  {
  }

  /** The day after a date has the next day count: the count really is the
      calendar's, with all of its leap years. */
  lemma DaysOfTomorrow(t: Date)
    requires ValidDate(t)
    ensures DaysFromCivil(Tomorrow(t)) == DaysFromCivil(t) + 1
  {
    hide DaysFromCivil, PartsOf, DaysOf, NextParts, ValidParts;
    PartsValid(t);
    DaysInParts(t);
    DaysInParts(Tomorrow(t));
    TomorrowInParts(t);
    DaysOfNextParts(PartsOf(t));
  }

  /** Day 0 is 1 January 1970, and the day counts of BinaryTime start 5113 days later. */
  lemma Epochs()
    ensures DaysFromCivil(Date(1970, 1, 1)) == 0
    ensures DaysFromCivil(Date(1984, 1, 1)) == 5113
  {
    assert TDiv(1969, 400) == 4 && TDiv(1983, 400) == 4;
    assert TDiv(153 * 10 + 2, 5) == 306;
  }
}
