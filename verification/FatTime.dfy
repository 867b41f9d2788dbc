/** FAT time stamps and Unix time (kernel/fs/fat32/fat_utils.cpp), against the calendar.
    A FAT date is year since 1980, month and day in 7, 4 and 5 bits; a FAT time is hour,
    minute and half seconds in 5, 6 and 5 bits. */
module FatTime {
  import opened Calendar

  const DAY: int := 86400
  const SECS_1980: int := 315532800
  const SECS_2108: int := 4354819200

  // Days before month m in a year without a leap day; the last three entries are unused months.
  const DAYS_IN_YEAR: seq<int> := [0, 0, 31, 59, 90, 120, 151, 181, 212, 243, 273, 304, 334, 0, 0, 0]

  function DayField(date: int): int { date % 32 }

  function MonthField(date: int): int { date / 32 % 16 }

  function YearField(date: int): int { date / 512 }

  // Leap days in the first year years from 1980; 2100 has none.
  function LeapDays(year: int): int { (year + 3) / 4 - if year > 120 then 1 else 0 }

  predicate ShortLeap(year: int) { year % 4 == 0 && year != 120 }

  // The macro max binds looser than the minus sign, so a day field of 0 counts as the 2nd.
  function ZeroBasedDay(date: int): int { if 1 > DayField(date) then 1 else DayField(date) - 1 }

  // What the macro was meant for: a day field of 0 counts as the 1st.
  function IntendedDay(date: int): int { (if 1 > DayField(date) then 1 else DayField(date)) - 1 }

  function FatTime2Unix(date: int, time: int): int
    requires 0 <= date < 0x10000 && 0 <= time < 0x10000
  {
    SecondsWith(date, time, ZeroBasedDay(date))
  }

  function IntendedUnix(date: int, time: int): int
    requires 0 <= date < 0x10000 && 0 <= time < 0x10000
  {
    SecondsWith(date, time, IntendedDay(date))
  }

  // The decoder, for a given zero-based day of the month.
  function SecondsWith(date: int, time: int, day: int): int
    requires 0 <= date < 0x10000 && 0 <= time < 0x10000
  {
    var year := YearField(date);
    var month := if 1 > MonthField(date) then 1 else MonthField(date);
    var leap_day := LeapDays(year) + if ShortLeap(year) && month > 2 then 1 else 0;
    var second := time % 32 * 2 + time / 32 % 64 * 60 + time / 2048 * 3600;
    second + (year * 365 + leap_day + DAYS_IN_YEAR[month] + day + 3652) * DAY
  }

  // ---- The format ----------------------------------------------------------------------

  predicate FatDay(t: Date) { Valid(t) && 1980 <= t.y <= 2107 }

  function PackDate(t: Date): int { (t.y - 1980) * 512 + t.m * 32 + t.d }

  function PackTime(hour: int, min: int, sec: int): int { hour * 2048 + min * 32 + sec / 2 }

  /** A stamp holds the year in its upper 7 bits, the month in the next 4 and the day in the
      lowest 5, which are the bits the decoder reads. */
  lemma DateFields(t: Date)
    requires FatDay(t)
    ensures 0 <= PackDate(t) < 0x10000
    ensures PackDate(t) / 512 == t.y - 1980 && PackDate(t) / 32 % 16 == t.m && PackDate(t) % 32 == t.d
    ensures YearField(PackDate(t)) == t.y - 1980 && MonthField(PackDate(t)) == t.m && DayField(PackDate(t)) == t.d
  {
    hide Leap;
    MonthRange(t);
    var hi := (t.y - 1980) * 16 + t.m;
    assert PackDate(t) == hi * 32 + t.d;
    assert PackDate(t) / 32 == hi;
  }

  lemma TimeFields(hour: int, min: int, sec: int)
    requires Clock(hour, min, sec)
    ensures var time := PackTime(hour, min, sec);
            0 <= time < 0x10000 && time % 32 == sec / 2 && time / 32 % 64 == min && time / 2048 == hour
  {
    var time := PackTime(hour, min, sec);
    var hi := hour * 64 + min;
    assert time == hi * 32 + sec / 2;
    assert time / 32 == hi;
  }

  // ---- Decoding ------------------------------------------------------------------------

  lemma LeapYears(y: int)
    requires 1980 <= y <= 2107
    ensures Leap(y) <==> ShortLeap(y - 1980)
    ensures Leaps(y) == LeapDays(y - 1980) + 479 + if Leap(y) then 1 else 0
    ensures Leaps(y - 1) == LeapDays(y - 1980) + 479
  {
    assert y / 100 == if y < 2000 then 19 else if y < 2100 then 20 else 21;
    assert (y - 1) / 100 == if y <= 2000 then 19 else if y <= 2100 then 20 else 21;
    assert y / 400 == if y < 2000 then 4 else 5;
    assert (y - 1) / 400 == if y <= 2000 then 4 else 5;
    assert (y - 1980 + 3) / 4 == (y - 1) / 4 - 494;
    assert y / 4 == (y - 1) / 4 + if y % 4 == 0 then 1 else 0;
  }

  lemma MonthTable(m: int)
    requires 1 <= m <= 12
    ensures 367 * (if m <= 2 then m + 10 else m - 2) / 12 == DAYS_IN_YEAR[m] + if m <= 2 then 336 else -29
  {
    assert m == 1 || m == 2 || m == 3 || m == 4 || m == 5 || m == 6 || m == 7 || m == 8 || m == 9 || m == 10 ||
        m == 11 || m == 12;
  }

  // The decoder's day count is the calendar's.
  lemma DaysFrom1980(t: Date)
    requires FatDay(t)
    ensures var year := t.y - 1980;
            year * 365 + LeapDays(year) + (if ShortLeap(year) && t.m > 2 then 1 else 0) +
            DAYS_IN_YEAR[t.m] + (t.d - 1) + 3652
            == Number(t)
  {
    hide Leap, Leaps, LeapDays, ShortLeap, Valid;
    MonthRange(t);
    LeapYears(t.y);
    MonthTable(t.m);
  }

  /** Decoding a FAT stamp of a valid date gives the seconds since 1970, rounded down to
      an even second. */
  lemma Decodes(t: Date, hour: int, min: int, sec: int)
    requires FatDay(t) && Clock(hour, min, sec)
    ensures FatTime2Unix(PackDate(t), PackTime(hour, min, sec)) == Seconds(t, hour, min, sec) - sec % 2
  {
    hide PackDate, PackTime, Number, YearField, MonthField, DayField, Leap, LeapDays, ShortLeap;
    MonthRange(t);
    DateFields(t);
    TimeFields(hour, min, sec);
    DaysFrom1980(t);
    assert sec == sec / 2 * 2 + sec % 2;
  }

  // ---- Encoding ------------------------------------------------------------------------

  // What a time is stored as: clamped to 1980 .. 2107 and rounded down to even seconds.
  function Stored(s: int): int {
    if s < SECS_1980 then SECS_1980
    else if s >= SECS_2108 then SECS_2108 - 2
    else s - s % 2
  }

  function YearStart(year: int): int { year * 365 + LeapDays(year) }

  /** The year search of the encoder: one division and at most one correction. */
  method FindYear(day0: int) returns (year: int, day: int)
    requires 0 <= day0 < YearStart(128)
    ensures 0 <= year <= 127 && day == day0 - YearStart(year) && 0 <= day < YearStart(year + 1) - YearStart(year)
  {
    year := day0 / 365;
    YearGuess(day0);
    if YearStart(year) > day0 {
      year := year - 1;
    }
    day := day0 - YearStart(year);
  }

  lemma YearGuess(day: int)
    requires 0 <= day < YearStart(128)
    ensures var y := day / 365;
            0 <= y <= 128 && day < YearStart(y + 1) && (YearStart(y) > day ==> y > 0 && YearStart(y - 1) <= day)
            && (y == 128 ==> YearStart(y) > day)
  {
    var y := day / 365;
    assert 365 * y <= day < 365 * y + 365;
    assert LeapDays(y + 1) >= 0 && (y > 0 ==> LeapDays(y - 1) <= 32);
  }

  // The month holding a day of the year, with February never longer than 28 days.
  predicate InMonth(month: int, day: int) {
    1 <= month <= 12 && DAYS_IN_YEAR[month] <= day && (month == 12 || day < DAYS_IN_YEAR[month + 1])
  }

  method FindMonth(day: int) returns (month: int)
    requires 0 <= day < 365
    ensures InMonth(month, day)
  {
    month := 1;
    while month < 12 && DAYS_IN_YEAR[month + 1] <= day
      invariant 1 <= month <= 12 && DAYS_IN_YEAR[month] <= day
      decreases 12 - month
    {
      month := month + 1;
    }
  }

  lemma MonthEnds(month: int, day: int)
    requires 0 <= day < 365 && InMonth(month, day)
    ensures day - DAYS_IN_YEAR[month] < MonthLength(1981, month)
  {
    assert month == 1 || month == 2 || month == 3 || month == 4 || month == 5 || month == 6 || month == 7 ||
        month == 8 || month == 9 || month == 10 || month == 11 || month == 12;
  }

  // The date the encoder finds in the year.
  method FindDate(year: int, day0: int) returns (t: Date)
    requires 0 <= year <= 127 && 0 <= day0 < YearStart(year + 1) - YearStart(year)
    ensures FatDay(t) && t.y == 1980 + year && Number(t) == YearStart(year) + day0 + 3652
  {
    hide Leaps, Leap, LeapDays, ShortLeap, Number;
    var day, month := day0, 0;
    LeapYears(1980 + year);
    YearLength(year);
    if ShortLeap(year) && day == DAYS_IN_YEAR[3] {
      month := 2;
    } else {
      if ShortLeap(year) && day > DAYS_IN_YEAR[3] { day := day - 1; }
      month := FindMonth(day);
      MonthEnds(month, day);
    }
    day := day - DAYS_IN_YEAR[month];
    t := Date(1980 + year, month, day + 1);
    assert FatDay(t);
    DaysFrom1980(t);
    assert day + DAYS_IN_YEAR[month] + (if ShortLeap(year) && month > 2 then 1 else 0) == day0;
  }

  lemma YearLength(year: int)
    requires 0 <= year <= 127
    ensures YearStart(year + 1) - YearStart(year) == if ShortLeap(year) then 366 else 365
  {
  }

  /** The encoder writes the calendar date and the time of day of its argument, or the
      first or last stamp there is. */
  method UnixTime2Fat(second: int) returns (date: int, time: int)
    ensures 0 <= date < 0x10000 && 0 <= time < 0x10000
    ensures SECS_1980 <= second < SECS_2108 ==>
              && FatDay(DateAt(second / DAY)) && date == PackDate(DateAt(second / DAY))
              && time == PackTime(second / 3600 % 24, second / 60 % 60, second % 60)
    ensures second < SECS_1980 ==> date == PackDate(Date(1980, 1, 1)) && time == PackTime(0, 0, 0)
    ensures second >= SECS_2108 ==> date == PackDate(Date(2107, 12, 31)) && time == PackTime(23, 59, 58)
    ensures FatTime2Unix(date, time) == Stored(second)
  {
    hide Number, FatTime2Unix, Leap, Leaps, LeapDays, DateAt, PackDate, PackTime, FatDay;
    EndNumbers();
    if second < SECS_1980 {
      EndStamp(Date(1980, 1, 1), 0, 0, 0);
      return PackDate(Date(1980, 1, 1)), PackTime(0, 0, 0);
    }
    if second >= SECS_2108 {
      EndStamp(Date(2107, 12, 31), 23, 59, 58);
      return PackDate(Date(2107, 12, 31)), PackTime(23, 59, 58);
    }
    DayRange(second);
    var year, day := FindYear(second / DAY - 3652);
    var t := FindDate(year, day);
    NumberedDate(t, second / DAY);
    date := PackDate(t);
    time := PackTime(second / 3600 % 24, second / 60 % 60, second % 60);
    ClockOf(second);
    DateFields(t);
    TimeFields(second / 3600 % 24, second / 60 % 60, second % 60);
    Decodes(t, second / 3600 % 24, second / 60 % 60, second % 60);
  }

  lemma NumberedDate(t: Date, n: int)
    requires FatDay(t) && Number(t) == n
    ensures n >= 0 && DateAt(n) == t
  {
    DateAtNumber(t);
  }

  lemma DayRange(second: int)
    requires SECS_1980 <= second < SECS_2108
    ensures 0 <= second / DAY - 3652 < YearStart(128)
  {
  }

  lemma ClockOf(s: int)
    requires s >= 0
    ensures Clock(s / 3600 % 24, s / 60 % 60, s % 60)
    ensures ((s / DAY * 24 + s / 3600 % 24) * 60 + s / 60 % 60) * 60 + s % 60 == s
    ensures s % 60 % 2 == s % 2
  {
    HoursOf(s);
    DaysOf(s);
    var q := s / 3600;
    assert s / 60 == q * 60 + s / 60 % 60;
    assert q == q / 24 * 24 + q % 24;
  }

  lemma HoursOf(s: int)
    ensures s / 3600 == s / 60 / 60
  {
  }

  lemma DaysOf(s: int)
    ensures s / DAY == s / 3600 / 24
  {
  }

  lemma Digit(a: int, b: int, k: int)
    requires 0 <= b < k && (k == 24 || k == 60)
    ensures (a * k + b) / k == a && (a * k + b) % k == b
  {
  }

  lemma EndNumbers()
    ensures Number(Date(1980, 1, 1)) == 3652 && Number(Date(2107, 12, 31)) == 50402
    ensures FatDay(Date(1980, 1, 1)) && FatDay(Date(2107, 12, 31))
  {
  }

  lemma EndStamp(t: Date, hour: int, min: int, sec: int)
    requires FatDay(t) && Clock(hour, min, sec) && sec % 2 == 0
    ensures 0 <= PackDate(t) < 0x10000 && 0 <= PackTime(hour, min, sec) < 0x10000
    ensures FatTime2Unix(PackDate(t), PackTime(hour, min, sec)) == Seconds(t, hour, min, sec)
  {
    hide FatTime2Unix, PackDate, PackTime, Number;
    DateFields(t);
    TimeFields(hour, min, sec);
    Decodes(t, hour, min, sec);
  }

  // ---- The other round trip -------------------------------------------------------------

  // The fields of a stamp name a date and a time of day.
  predicate ValidStamp(date: int, time: int) {
    && 0 <= date < 0x10000 && 0 <= time < 0x10000
    && Valid(Date(1980 + YearField(date), MonthField(date), DayField(date)))
    && time % 32 < 30 && time / 32 % 64 < 60 && time / 2048 < 24
  }

  /** Every valid stamp comes back from Unix time bit for bit. */
  method StampRoundTrip(date: int, time: int) returns (date': int, time': int)
    requires ValidStamp(date, time)
    ensures date' == date && time' == time
  {
    hide Number, FatTime2Unix, Leap, Leaps, LeapDays, Valid, DateAt, PackTime, PackDate;
    var t := Date(1980 + YearField(date), MonthField(date), DayField(date));
    var hour, min, sec := time / 2048, time / 32 % 64, time % 32 * 2;
    UnpackDate(date);
    UnpackTime(time);
    Decodes(t, hour, min, sec);
    var s := FatTime2Unix(date, time);
    StampInRange(t, hour, min, sec);
    NumberedDate(t, s / DAY);
    date', time' := UnixTime2Fat(s);
  }

  lemma UnpackDate(date: int)
    requires 0 <= date < 0x10000
    ensures PackDate(Date(1980 + YearField(date), MonthField(date), DayField(date))) == date
    ensures 0 <= YearField(date) <= 127
  {
    assert date / 512 == date / 32 / 16;
  }

  lemma UnpackTime(time: int)
    requires 0 <= time < 0x10000 && time % 32 < 30 && time / 32 % 64 < 60 && time / 2048 < 24
    ensures Clock(time / 2048, time / 32 % 64, time % 32 * 2)
    ensures PackTime(time / 2048, time / 32 % 64, time % 32 * 2) == time
  {
    assert time / 2048 == time / 32 / 64;
  }

  lemma StampInRange(t: Date, hour: int, min: int, sec: int)
    requires FatDay(t) && Clock(hour, min, sec) && sec % 2 == 0
    ensures var s := Seconds(t, hour, min, sec);
            && SECS_1980 <= s < SECS_2108 && s / DAY == Number(t)
            && s / 3600 % 24 == hour && s / 60 % 60 == min && s % 60 == sec
  {
    hide Leap, Leaps, LeapDays, ShortLeap, Number;
    DaysFrom1980(t);
    DayBounds(t);
    var s := Seconds(t, hour, min, sec);
    ClockBack(Number(t), hour, min, sec);
  }

  lemma ClockBack(n: int, hour: int, min: int, sec: int)
    requires Clock(hour, min, sec) && n >= 0
    ensures var s := ((n * 24 + hour) * 60 + min) * 60 + sec;
            s / DAY == n && s / 3600 % 24 == hour && s / 60 % 60 == min && s % 60 == sec
  {
    var s := ((n * 24 + hour) * 60 + min) * 60 + sec;
    HoursOf(s);
    DaysOf(s);
    Digit((n * 24 + hour) * 60 + min, sec, 60);
    Digit(n * 24 + hour, min, 60);
    Digit(n, hour, 24);
  }

  lemma DayBounds(t: Date)
    requires FatDay(t)
    ensures 3652 <= Number(t) < 50403
  {
    hide Leap, Number;
    MonthRange(t);
    DaysFrom1980(t);
    assert 0 <= LeapDays(t.y - 1980) <= 31;
    assert t.y == 2107 ==> !ShortLeap(127);
  }

  /** The decoder reads a stamp as intended if and only if its day field is not 0; then it
      is a day late. */
  lemma ZeroDay(date: int, time: int)
    requires 0 <= date < 0x10000 && 0 <= time < 0x10000
    ensures FatTime2Unix(date, time) == IntendedUnix(date, time) <==> DayField(date) != 0
    ensures DayField(date) == 0 ==> FatTime2Unix(date, time) == IntendedUnix(date, time) + DAY
  {
    hide YearField, MonthField, LeapDays, ShortLeap;
    DayShift(date, time, ZeroBasedDay(date), IntendedDay(date));
  }

  lemma DayShift(date: int, time: int, d: int, e: int)
    requires 0 <= date < 0x10000 && 0 <= time < 0x10000
    ensures SecondsWith(date, time, d) == SecondsWith(date, time, e) + (d - e) * DAY
  {
    hide YearField, LeapDays, ShortLeap;
  }
}
