/** DOS dates and times, and the seconds since 1970 they stand for. */
module DosTimes {
  import opened Results

  /** 1980-01-01T00:00:00Z and 2107-12-31T23:59:59Z, as the tree's checker writes them. */
  const FIRST_DATE := 315532800
  const LAST_DATE := 4354819199
  /** The most that two honest times may differ by. */
  const TIME_SLACK := 2
  const EPOCH_ORDINAL := 719163
  const FIRST_ORDINAL := 722815

  predicate Leap(y: nat) {
    y % 4 == 0 && (y % 100 != 0 || y % 400 == 0)
  }

  function DaysInMonth(y: nat, m: nat): nat
    requires 1 <= m <= 12
  {
    if m == 2 then (if Leap(y) then 29 else 28) else if m in {4, 6, 9, 11} then 30 else 31
  }

  function DaysBeforeMonth(y: nat, m: nat): nat
    requires 1 <= m <= 12
  {
    [0, 31, 59, 90, 120, 151, 181, 212, 243, 273, 304, 334][m - 1] + if m > 2 && Leap(y) then 1 else 0
  }

  function DaysBeforeYear(y: nat): int
    requires 1 <= y
  {
    (y - 1) * 365 + (y - 1) / 4 - (y - 1) / 100 + (y - 1) / 400
  }

  predicate IsDate(y: nat, m: nat, d: nat) {
    1 <= y && 1 <= m <= 12 && 1 <= d <= DaysInMonth(y, m)
  }

  /** `datetime.date(y, m, d).toordinal()`. */
  function Ordinal(y: nat, m: nat, d: nat): int
    requires IsDate(y, m, d)
  {
    DaysBeforeYear(y) + DaysBeforeMonth(y, m) + d
  }

  /** `dos_time`: seconds, or None for fields that are not a date. */
  function DosTime(t: nat, d: nat): Option<int> {
    var year, month, day := 1980 + d / 512, d / 32 % 16, d % 32;
    var hour, minute, second := t / 2048, t / 32 % 64, t % 32 * 2;
    if !(1 <= month <= 12 && 1 <= day <= 31 && hour < 24 && minute < 60 && second < 60) then None
    else if !IsDate(year, month, day) then None
    else Some((((Ordinal(year, month, day) - EPOCH_ORDINAL) * 24 + hour) * 60 + minute) * 60 + second)
  }

  lemma YearStep(y: nat)
    requires 1 <= y
    ensures DaysBeforeYear(y + 1) == DaysBeforeYear(y) + if Leap(y) then 366 else 365
  {
    Carry(y, 4);
    Carry(y, 100);
    Carry(y, 400);
    Multiples(y);
  }

  lemma Multiples(y: nat)
    ensures y % 400 == 0 ==> y % 100 == 0
    ensures y % 100 == 0 ==> y % 4 == 0
  {
    if y % 400 == 0 { Multiple(y, 100, 4 * (y / 400)); }
    if y % 100 == 0 { Multiple(y, 4, 25 * (y / 100)); }
  }

  lemma Multiple(y: nat, m: nat, q: nat)
    requires m in {4, 100} && y == m * q
    ensures y % m == 0
  {
    if m == 4 { assert y == 4 * q; } else { assert y == 100 * q; }
  }

  lemma Carry(y: nat, m: nat)
    requires 1 <= y && m in {4, 100, 400}
    ensures y / m == (y - 1) / m + if y % m == 0 then 1 else 0
  {
    if m == 4 {
    } else if m == 100 {
    } else {
    }
  }

  lemma MonthStep(y: nat, m: nat)
    requires 1 <= m < 12
    ensures DaysBeforeMonth(y, m + 1) == DaysBeforeMonth(y, m) + DaysInMonth(y, m)
  {
  }

  lemma {:induction false} YearsIncrease(y: nat, z: nat)
    requires 1 <= y <= z
    ensures DaysBeforeYear(y) <= DaysBeforeYear(z)
    ensures y < z ==> DaysBeforeYear(y + 1) <= DaysBeforeYear(z)
    decreases z - y
  {
    if y == z {
    } else {
      YearStep(y);
      YearsIncrease(y + 1, z);
    }
  }

  lemma {:induction false} MonthsIncrease(y: nat, m: nat, n: nat)
    requires 1 <= m < n <= 12
    ensures DaysBeforeMonth(y, m) + DaysInMonth(y, m) <= DaysBeforeMonth(y, n)
    decreases n - m
  {
    MonthStep(y, m);
    if m + 1 == n {
    } else {
      MonthsIncrease(y, m + 1, n);
    }
  }

  lemma YearHolds(y: nat, m: nat)
    requires 1 <= m <= 12
    ensures DaysBeforeMonth(y, m) + DaysInMonth(y, m) <= if Leap(y) then 366 else 365
  {
    if m < 12 {
      MonthsIncrease(y, m, 12);
    }
  }

  /** A later date has a greater ordinal. */
  lemma OrdinalIncreases(y: nat, m: nat, d: nat, y': nat, m': nat, d': nat)
    requires IsDate(y, m, d) && IsDate(y', m', d')
    requires y < y' || (y == y' && (m < m' || (m == m' && d < d')))
    ensures Ordinal(y, m, d) < Ordinal(y', m', d')
  {
    if y < y' {
      YearHolds(y, m);
      YearStep(y);
      YearsIncrease(y, y');
    } else if m < m' {
      MonthsIncrease(y, m, m');
    }
  }

  /** The date `n` days after 1980-01-01. */
  ghost function DateAfter(n: nat): (r: (nat, nat, nat))
    ensures 1980 <= r.0 && IsDate(r.0, r.1, r.2)
    ensures Ordinal(r.0, r.1, r.2) == FIRST_ORDINAL + n
  {
    if n == 0 then (1980, 1, 1)
    else
      var (y, m, d) := DateAfter(n - 1);
      if d < DaysInMonth(y, m) then (y, m, d + 1)
      else if m < 12 then MonthStep(y, m); (y, m + 1, 1)
      else YearStep(y); (y + 1, 1, 1)
  }

  const DAY := 86400

  lemma Decoded(t: nat, d: nat)
    requires d < 0x1_0000 && DosTime(t, d).Some?
    ensures var y, m, day := 1980 + d / 512, d / 32 % 16, d % 32;
      IsDate(y, m, day) && y <= 2107 && t / 2048 < 24 && t / 32 % 64 < 60 && t % 32 < 30
      && DosTime(t, d).value == (Ordinal(y, m, day) - EPOCH_ORDINAL) * DAY
                                + t / 2048 * 3600 + t / 32 % 64 * 60 + t % 32 * 2
  {
  }

  lemma SecondsOfDay(t: nat)
    requires t / 2048 < 24 && t / 32 % 64 < 60 && t % 32 < 30
    ensures t / 2048 * 3600 + t / 32 % 64 * 60 + t % 32 * 2 < DAY
  {
  }

  /** The packed fields, date first, order valid entries as their seconds do. */
  lemma DosTimeIncreases(t: nat, d: nat, t': nat, d': nat)
    requires t < 0x1_0000 && d < 0x1_0000 && t' < 0x1_0000 && d' < 0x1_0000
    requires DosTime(t, d).Some? && DosTime(t', d').Some?
    ensures d * 0x1_0000 + t < d' * 0x1_0000 + t' <==> DosTime(t, d).value < DosTime(t', d').value
  {
    PackedOrder(t, d, t', d');
    if d < d' || (d == d' && t < t') {
      Later(t, d, t', d');
    } else if (t, d) != (t', d') {
      Later(t', d', t, d);
    }
  }

  lemma PackedOrder(t: nat, d: nat, t': nat, d': nat)
    requires t < 0x1_0000 && t' < 0x1_0000
    ensures d * 0x1_0000 + t < d' * 0x1_0000 + t' <==> d < d' || (d == d' && t < t')
  {
  }

  lemma DateFields(d: nat)
    ensures d == d / 512 * 512 + d / 32 % 16 * 32 + d % 32
  {
    assert d / 512 == d / 32 / 16;
  }

  lemma TimeFields(t: nat)
    ensures t == t / 2048 * 2048 + t / 32 % 64 * 32 + t % 32
  {
    assert t / 2048 == t / 32 / 64;
  }

  lemma Later(t: nat, d: nat, t': nat, d': nat)
    requires t < 0x1_0000 && d < 0x1_0000 && t' < 0x1_0000 && d' < 0x1_0000
    requires DosTime(t, d).Some? && DosTime(t', d').Some? && (d < d' || (d == d' && t < t'))
    ensures DosTime(t, d).value < DosTime(t', d').value
  {
    if d < d' {
      LaterDay(t, d, t', d');
    } else {
      LaterTime(t, t', d);
    }
  }

  lemma LaterDay(t: nat, d: nat, t': nat, d': nat)
    requires d < d' < 0x1_0000 && DosTime(t, d).Some? && DosTime(t', d').Some?
    ensures DosTime(t, d).value < DosTime(t', d').value
  {
    var o := DayOrdinal(t, d);
    var o' := DayOrdinal(t', d');
    DaysLater(t, d, t', d');
  }

  lemma DayOrdinal(t: nat, d: nat) returns (o: int)
    requires d < 0x1_0000 && DosTime(t, d).Some?
    ensures IsDate(1980 + d / 512, d / 32 % 16, d % 32) && o == Ordinal(1980 + d / 512, d / 32 % 16, d % 32)
    ensures (o - EPOCH_ORDINAL) * DAY <= DosTime(t, d).value < (o + 1 - EPOCH_ORDINAL) * DAY
  {
    Decoded(t, d);
    SecondsOfDay(t);
    o := Ordinal(1980 + d / 512, d / 32 % 16, d % 32);
  }

  lemma DaysLater(t: nat, d: nat, t': nat, d': nat)
    requires d < d'
    requires IsDate(1980 + d / 512, d / 32 % 16, d % 32) && IsDate(1980 + d' / 512, d' / 32 % 16, d' % 32)
    ensures Ordinal(1980 + d / 512, d / 32 % 16, d % 32) < Ordinal(1980 + d' / 512, d' / 32 % 16, d' % 32)
  {
    DateFields(d);
    DateFields(d');
    OrdinalIncreases(1980 + d / 512, d / 32 % 16, d % 32, 1980 + d' / 512, d' / 32 % 16, d' % 32);
  }

  lemma LaterTime(t: nat, t': nat, d: nat)
    requires t < t' && d < 0x1_0000 && DosTime(t, d).Some? && DosTime(t', d).Some?
    ensures DosTime(t, d).value < DosTime(t', d).value
  {
    Decoded(t, d);
    Decoded(t', d);
    TimeFields(t);
    TimeFields(t');
    ClockOrder(t / 2048, t / 32 % 64, t % 32, t' / 2048, t' / 32 % 64, t' % 32);
  }

  lemma ClockOrder(h: nat, m: nat, s: nat, h': nat, m': nat, s': nat)
    requires m < 60 && s < 30 && m' < 60 && s' < 30
    requires h * 2048 + m * 32 + s < h' * 2048 + m' * 32 + s'
    ensures h * 3600 + m * 60 + s * 2 < h' * 3600 + m' * 60 + s' * 2
  {
    assert h < h' || (h == h' && (m < m' || (m == m' && s < s')));
  }

  lemma UnpackDate(y: nat, m: nat, d: nat)
    requires m < 16 && d < 32
    ensures var p := y * 512 + m * 32 + d; p / 512 == y && p / 32 % 16 == m && p % 32 == d
  {
  }

  lemma UnpackTime(h: nat, m: nat, s: nat)
    requires m < 64 && s < 32
    ensures var p := h * 2048 + m * 32 + s; p / 2048 == h && p / 32 % 64 == m && p % 32 == s
  {
  }

  lemma SplitTime(rest: nat)
    requires rest < DAY
    ensures rest == rest / 3600 * 3600 + rest / 60 % 60 * 60 + rest % 60 && rest / 3600 < 24
  {
    assert rest / 3600 == rest / 60 / 60;
  }

  ghost function PackTime(rest: nat): (t: nat)
    requires rest < DAY && rest % 2 == 0
    ensures t < 0x1_0000 && t / 2048 < 24 && t / 32 % 64 < 60 && t % 32 < 30
    ensures rest == t / 2048 * 3600 + t / 32 % 64 * 60 + t % 32 * 2
  {
    SplitTime(rest);
    UnpackTime(rest / 3600, rest / 60 % 60, rest % 60 / 2);
    rest / 3600 * 2048 + rest / 60 % 60 * 32 + rest % 60 / 2
  }

  ghost function PackDate(y: nat, m: nat, d: nat): (p: nat)
    requires 1980 <= y && m < 16 && d < 32
    ensures 1980 + p / 512 == y && p / 32 % 16 == m && p % 32 == d
    ensures y <= 2107 ==> p < 0x1_0000
  {
    UnpackDate(y - 1980, m, d);
    (y - 1980) * 512 + m * 32 + d
  }

  lemma DayAndRest(x: nat)
    ensures x == x / DAY * DAY + x % DAY
    ensures x % 2 == 0 ==> x % DAY % 2 == 0
    ensures x <= LAST_DATE - FIRST_DATE ==> x / DAY <= (LAST_DATE - FIRST_DATE) / DAY
  {
    assert x % DAY == x - x / DAY * DAY;
  }

  lemma MonthAndDay(n: nat)
    ensures DateAfter(n).1 < 16 && DateAfter(n).2 < 32
  {
  }

  ghost function FieldsOf(n: nat, rest: nat): (r: (nat, nat))
    requires n <= (LAST_DATE - FIRST_DATE) / DAY && rest < DAY && rest % 2 == 0
    ensures r.0 < 0x1_0000 && r.1 < 0x1_0000 && DosTime(r.0, r.1) == Some(FIRST_DATE + n * DAY + rest)
  {
    YearInRange(n);
    MonthAndDay(n);
    var (y, m, d) := DateAfter(n);
    Recomposed(PackTime(rest), PackDate(y, m, d), n, rest);
    (PackTime(rest), PackDate(y, m, d))
  }

  /** The day that a second of the range is in. */
  ghost function DayOf(x: nat): (n: nat)
    requires x <= LAST_DATE - FIRST_DATE
    ensures n <= (LAST_DATE - FIRST_DATE) / DAY
  {
    DayAndRest(x);
    x / DAY
  }

  /** The seconds of that day. */
  ghost function RestOf(x: nat): (rest: nat)
    requires x <= LAST_DATE - FIRST_DATE
    ensures rest < DAY && x == DayOf(x) * DAY + rest && (x % 2 == 0 ==> rest % 2 == 0)
  {
    DayAndRest(x);
    x % DAY
  }

  /** The (time, date) fields of an even second: the inverse of `DosTime`. */
  ghost function Fields(s: int): (r: (nat, nat))
    requires FIRST_DATE <= s <= LAST_DATE && s % 2 == 0
    ensures r.0 < 0x1_0000 && r.1 < 0x1_0000 && DosTime(r.0, r.1) == Some(s)
  {
    hide FieldsOf, DosTime, DayOf, RestOf;
    FieldsOf(DayOf(s - FIRST_DATE), RestOf(s - FIRST_DATE))
  }

  /** Every even second from the first date to the last is the time of exactly one pair of fields. */
  lemma DosTimeOnto(s: int, t: nat, d: nat)
    requires 315532800 <= s <= 4354819199 && s % 2 == 0 && t < 0x1_0000 && d < 0x1_0000
    ensures DosTime(t, d) == Some(s) <==> (t, d) == Fields(s)
  {
    if DosTime(t, d) == Some(s) {
      var (u, e) := Fields(s);
      SameTime(t, d, u, e);
    }
  }

  lemma YearInRange(n: nat)
    requires n <= (LAST_DATE - FIRST_DATE) / DAY
    ensures DateAfter(n).0 <= 2107
  {
    var (y, m, day) := DateAfter(n);
    if 2108 <= y {
      YearsIncrease(2108, y);
    }
  }

  lemma Recomposed(t: nat, d: nat, n: nat, rest: nat)
    requires (1980 + d / 512, d / 32 % 16, d % 32) == DateAfter(n)
    requires t / 2048 < 24 && t / 32 % 64 < 60 && t % 32 < 30
    requires rest == t / 2048 * 3600 + t / 32 % 64 * 60 + t % 32 * 2
    ensures DosTime(t, d) == Some(FIRST_DATE + n * DAY + rest)
  {
    var (y, m, day) := DateAfter(n);
    Evaluated(t, d, y, m, day, FIRST_ORDINAL + n);
  }

  lemma Evaluated(t: nat, d: nat, y: nat, m: nat, day: nat, o: int)
    requires (1980 + d / 512, d / 32 % 16, d % 32) == (y, m, day) && IsDate(y, m, day) && Ordinal(y, m, day) == o
    requires t / 2048 < 24 && t / 32 % 64 < 60 && t % 32 < 30
    ensures DosTime(t, d) == Some((o - EPOCH_ORDINAL) * DAY + t / 2048 * 3600 + t / 32 % 64 * 60 + t % 32 * 2)
  {
  }

  /** Every decoded time is an even second from the first date to the last, and no other fields give it. */
  lemma DosTimeInto(t: nat, d: nat)
    requires t < 0x1_0000 && d < 0x1_0000 && DosTime(t, d).Some?
    ensures var s := DosTime(t, d).value; 315532800 <= s <= 4354819199 && s % 2 == 0 && Fields(s) == (t, d)
  {
    var o := DayOrdinal(t, d);
    DaysInRange(1980 + d / 512, d / 32 % 16, d % 32);
    var s := DosTime(t, d).value;
    assert s % 2 == 0 by {
      Decoded(t, d);
    }
    var (u, e) := Fields(s);
    SameTime(t, d, u, e);
  }

  lemma SameTime(t: nat, d: nat, u: nat, e: nat)
    requires t < 0x1_0000 && d < 0x1_0000 && u < 0x1_0000 && e < 0x1_0000
    requires DosTime(t, d).Some? && DosTime(u, e) == DosTime(t, d)
    ensures (t, d) == (u, e)
  {
    DosTimeIncreases(t, d, u, e);
    DosTimeIncreases(u, e, t, d);
    PackedApart(t, d, u, e);
  }

  lemma PackedApart(t: nat, d: nat, u: nat, e: nat)
    requires t < 0x1_0000 && u < 0x1_0000 && d * 0x1_0000 + t == e * 0x1_0000 + u
    ensures (t, d) == (u, e)
  {
  }

  lemma DaysInRange(y: nat, m: nat, d: nat)
    requires 1980 <= y <= 2107 && IsDate(y, m, d)
    ensures FIRST_DATE / DAY <= Ordinal(y, m, d) - EPOCH_ORDINAL < (LAST_DATE + 1) / DAY
  {
    YearsIncrease(1980, y);
    YearHolds(y, m);
    YearStep(y);
    YearsIncrease(y + 1, 2108);
  }

  /** Any whole second from the first date to the last, kept as FAT keeps it, reads back within two seconds. */
  lemma KeptWithinSlack(s: int)
    requires 315532800 <= s <= 4354819199
    ensures var (t, d) := Fields(s - s % 2);
      DosTime(t, d).Some? && -2 <= DosTime(t, d).value - s <= 2
  {
    var (t, d) := Fields(s - s % 2);
  }

  // Which fields are a date.

  lemma MonthLengths(y: nat, m: nat)
    requires 1 <= m <= 12
    ensures var february := if y % 4 == 0 && (y % 100 != 0 || y % 400 == 0) then 29 else 28;
      DaysInMonth(y, m) == [31, february, 31, 30, 31, 30, 31, 31, 30, 31, 30, 31][m - 1]
  {
  }

  /** Bit fields are a time if and only if the day is one of its month's, and the hour, the minute and the second of
      a day's; `two` counts two-second steps. */
  lemma DosTimeValid(year: nat, month: nat, day: nat, hour: nat, minute: nat, two: nat)
    requires year < 128 && month < 16 && day < 32 && hour < 32 && minute < 64 && two < 32
    ensures DosTime(hour * 2048 + minute * 32 + two, year * 512 + month * 32 + day).Some? <==>
      && 1 <= month <= 12 && 1 <= day && hour < 24 && minute < 60 && two < 30
      && var y := 1980 + year;
         day <= [31, if y % 4 == 0 && (y % 100 != 0 || y % 400 == 0) then 29 else 28, 31, 30, 31, 30,
                 31, 31, 30, 31, 30, 31][month - 1]
  {
    UnpackDate(year, month, day);
    UnpackTime(hour, minute, two);
    DateValid(year * 512 + month * 32 + day, 1980 + year, month, day);
    if 1 <= month <= 12 {
      MonthLengths(1980 + year, month);
    }
    hide DaysInMonth, Ordinal, Leap, IsDate;
  }

  lemma DateValid(d: nat, y: nat, m: nat, day: nat)
    requires 1 <= y
    ensures IsDate(y, m, day) <==> 1 <= m <= 12 && 1 <= day <= DaysInMonth(y, m)
  {
  }

  /** The time of known fields. */
  lemma TimeAt(year: nat, month: nat, day: nat, hour: nat, minute: nat, two: nat, ordinal: int)
    requires IsDate(1980 + year, month, day) && Ordinal(1980 + year, month, day) == ordinal
    requires hour < 24 && minute < 60 && two < 30
    ensures DosTime(hour * 2048 + minute * 32 + two, year * 512 + month * 32 + day)
         == Some((ordinal - 719163) * 86400 + hour * 3600 + minute * 60 + two * 2)
  {
    DateValid(0, 1980 + year, month, day);
    MonthLengths(1980 + year, month);
    UnpackDate(year, month, day);
    UnpackTime(hour, minute, two);
    hide DaysInMonth, Ordinal, Leap, IsDate;
  }

  lemma KnownDays()
    ensures IsDate(2024, 2, 29) && Ordinal(2024, 2, 29) == 738945 && IsDate(1980, 1, 1) && Ordinal(1980, 1, 1) == 722815
    ensures IsDate(2107, 12, 31) && Ordinal(2107, 12, 31) == 769565
    ensures IsDate(2000, 12, 31) && Ordinal(2000, 12, 31) == 730485
    ensures IsDate(2100, 3, 1) && Ordinal(2100, 3, 1) == 766704
    ensures IsDate(2023, 5, 31) && Ordinal(2023, 5, 31) == 738671
    ensures IsDate(2023, 4, 30) && Ordinal(2023, 4, 30) == 738640
  {
  }

  /** Times that other programs give: a leap day, both ends of the range, the end of a year, the day after 2100's
      February, and the ends of a long and a short month; and four that are none. */
  lemma KnownTimes()
    ensures DosTime(0x645C, 0x585D) == Some(1709210096) && DosTime(0, 0x0021) == Some(315532800)
    ensures DosTime(0xBF7D, 0xFF9F) == Some(4354819198) && DosTime(0xBF7D, 0x299F) == Some(978307198)
    ensures DosTime(0, 0xF061) == Some(4107542400)
    ensures DosTime(0x0842, 0x56BF) == Some(1685494924) && DosTime(0x0842, 0x569E) == Some(1682816524)
    ensures DosTime(0, 0) == DosTime(0, 0xF05D) == DosTime(0xC000, 0x0021) == DosTime(0x001E, 0x0021) == None
  {
    hide DosTime, Ordinal, IsDate, Leap;
    KnownDays();
    TimeAt(44, 2, 29, 12, 34, 28, 738945);
    TimeAt(0, 1, 1, 0, 0, 0, 722815);
    TimeAt(127, 12, 31, 23, 59, 29, 769565);
    TimeAt(20, 12, 31, 23, 59, 29, 730485);
    TimeAt(120, 3, 1, 0, 0, 0, 766704);
    TimeAt(43, 5, 31, 1, 2, 2, 738671);
    TimeAt(43, 4, 30, 1, 2, 2, 738640);
    DosTimeValid(0, 0, 0, 0, 0, 0);
    DosTimeValid(120, 2, 29, 0, 0, 0);
    DosTimeValid(0, 1, 1, 24, 0, 0);
    DosTimeValid(0, 1, 1, 0, 0, 30);
  }
}
