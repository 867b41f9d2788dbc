/** The Gregorian calendar counted day by day, and the kernel's closed forms for it: mktime
    (kernel/os/time.cpp) and the weekday and year-day functions of kernel/driver/rtc.c. */
module Calendar {
  import opened Common
  import opened Words

  datatype Date = Date(y: int, m: int, d: int)

  predicate Leap(y: int) { (y % 4 == 0 && y % 100 != 0) || y % 400 == 0 }

  function MonthLength(y: int, m: int): int {
    if m == 2 then (if Leap(y) then 29 else 28)
    else if m == 4 || m == 6 || m == 9 || m == 11 then 30 else 31
  }

  predicate Valid(t: Date) { 1 <= t.m <= 12 && 1 <= t.d <= MonthLength(t.y, t.m) }

  const EPOCH := Date(1970, 1, 1)

  function Next(t: Date): Date {
    if t.d < MonthLength(t.y, t.m) then Date(t.y, t.m, t.d + 1)
    else if t.m < 12 then Date(t.y, t.m + 1, 1)
    else Date(t.y + 1, 1, 1)
  }

  // The date n days after 1 January 1970, counting one day at a time.
  function DateAt(n: nat): Date {
    if n == 0 then EPOCH else Next(DateAt(n - 1))
  }

  // ---- The day number in closed form, with the year starting in March --------------------

  function MarchYear(t: Date): int { if t.m <= 2 then t.y - 1 else t.y }

  function MarchMonth(t: Date): int { if t.m <= 2 then t.m + 10 else t.m - 2 }

  function Leaps(y: int): int { y / 4 - y / 100 + y / 400 }

  function Number(t: Date): int {
    Leaps(MarchYear(t)) + 367 * MarchMonth(t) / 12 + t.d + 365 * MarchYear(t) - 719499
  }

  lemma LeapsStep(y: int)
    ensures Leaps(y + 1) == Leaps(y) + if Leap(y + 1) then 1 else 0
  {
    DivStep(y, 4);
    DivStep(y, 100);
    DivStep(y, 400);
  }

  lemma DivStep(y: int, k: nat)
    requires k == 4 || k == 100 || k == 400
    ensures (y + 1) / k == y / k + if (y + 1) % k == 0 then 1 else 0
  {
  }

  lemma NextValid(t: Date)
    requires Valid(t)
    ensures Valid(Next(t)) && Next(t).y >= t.y
  {
  }

  lemma NumberNext(t: Date)
    requires Valid(t)
    ensures Number(Next(t)) == Number(t) + 1
  {
    hide Leaps, Leap;
    LeapsStep(t.y - 1);
  }

  lemma FirstDay()
    ensures Valid(EPOCH) && Number(EPOCH) == 0
  {
  }

  lemma {:induction false} NumberOfDateAt(n: nat)
    ensures Valid(DateAt(n)) && DateAt(n).y >= 1970 && Number(DateAt(n)) == n
  {
    hide Valid, Number, Next;
    FirstDay();
    if n > 0 {
      NumberOfDateAt(n - 1);
      NextValid(DateAt(n - 1));
      NumberNext(DateAt(n - 1));
    }
  }

  function Prev(t: Date): Date {
    if t.d > 1 then Date(t.y, t.m, t.d - 1)
    else if t.m > 1 then Date(t.y, t.m - 1, MonthLength(t.y, t.m - 1))
    else Date(t.y - 1, 12, 31)
  }

  /** Every valid date from 1970 on is reached by counting, after exactly Number days. */
  lemma {:induction false} DateAtNumber(t: Date)
    requires Valid(t) && t.y >= 1970
    ensures Number(t) >= 0 && DateAt(Number(t)) == t
    decreases t.y, t.m, t.d
  {
    if t != EPOCH {
      var p := Prev(t);
      assert Valid(p) && Next(p) == t;
      DateAtNumber(p);
      NumberNext(p);
    }
  }

  // ---- mktime ----------------------------------------------------------------------------


  /** mktime with its unsigned arithmetic: years, months and days in 32 bits, what follows
      the cast in 64 bits. */
  function Mktime(year0: int, mon0: int, day: int, hour: int, min: int, sec: int): int {
    var mon1 := (mon0 - 2) % U32;
    var early := mon1 == 0 || mon1 >= U32 / 2;
    var mon := if early then (mon1 + 12) % U32 else mon1;
    var year := if early then (year0 - 1) % U32 else year0;
    var days := (year / 4 - year / 100 + year / 400 + (367 * mon % U32) / 12 + day) % U32;
    ((((days + (year * 365) % U32 - 719499) % U64 * 24 + hour) % U64 * 60 + min) % U64 * 60 + sec) % U64
  }

  function Seconds(t: Date, hour: int, min: int, sec: int): int {
    ((Number(t) * 24 + hour) * 60 + min) * 60 + sec
  }

  predicate Clock(hour: int, min: int, sec: int) { 0 <= hour < 24 && 0 <= min < 60 && 0 <= sec < 60 }

  lemma MktimeMonth(m: int)
    requires 1 <= m <= 12
    ensures var mon1 := (m - 2) % U32;
            && ((mon1 == 0 || mon1 >= U32 / 2) <==> m <= 2)
            && (m <= 2 ==> (mon1 + 12) % U32 == m + 10) && (m > 2 ==> mon1 == m - 2)
  {
  }

  // The hours, minutes and seconds of mktime added to a day count.
  function Sum64(n: int, hour: int, min: int, sec: int): int {
    ((n % U64 * 24 + hour) % U64 * 60 + min) % U64 * 60 + sec
  }

  lemma Sum64Is(n: int, hour: int, min: int, sec: int)
    ensures Sum64(n, hour, min, sec) % U64 == (((n * 24 + hour) * 60 + min) * 60 + sec) % U64
  {
    ReduceStep(n, 24, hour);
    ReduceStep(n * 24 + hour, 60, min);
    ReduceStep((n * 24 + hour) * 60 + min, 60, sec);
  }

  lemma MktimeIs(t: Date, hour: int, min: int, sec: int)
    requires Valid(t) && 1970 <= t.y < U32
    ensures Mktime(t.y, t.m, t.d, hour, min, sec) ==
            Sum64(Number(t) - U32 * (MarchYear(t) * 365 / U32), hour, min, sec) % U64
  {
    hide Valid, Leaps, Sum64;
    MonthRange(t);
    MktimeMonth(t.m);
    var y, mon := MarchYear(t), MarchMonth(t);
    SmallSum(y, mon, t.d);
    assert (y * 365) % U32 == y * 365 - U32 * (y * 365 / U32);
    var days := (Leaps(y) + 367 * mon / 12 + t.d) % U32;
    assert (t.y - 1) % U32 == t.y - 1 && days == Leaps(y) + 367 * mon / 12 + t.d;
    MktimeUnfolds(t, hour, min, sec);
  }

  lemma MktimeUnfolds(t: Date, hour: int, min: int, sec: int)
    requires 1 <= t.m <= 12 && 1970 <= t.y < U32
    ensures var y, mon := MarchYear(t), MarchMonth(t);
            Mktime(t.y, t.m, t.d, hour, min, sec) ==
            Sum64((Leaps(y) + (367 * mon % U32) / 12 + t.d) % U32 + (y * 365) % U32 - 719499, hour, min, sec) % U64
  {
    MktimeMonth(t.m);
    assert (t.y - 1) % U32 == t.y - 1;
  }

  // What mktime returns, with the one loss written out: year * 365 in 32 bits.
  lemma MktimeValue(t: Date, hour: int, min: int, sec: int)
    requires Valid(t) && 1970 <= t.y < U32
    ensures Mktime(t.y, t.m, t.d, hour, min, sec) ==
            (Seconds(t, hour, min, sec) - 86400 * (U32 * (MarchYear(t) * 365 / U32))) % U64
  {
    hide Valid, Mktime, Number, Sum64;
    var lost := U32 * (MarchYear(t) * 365 / U32);
    MktimeIs(t, hour, min, sec);
    Sum64Is(Number(t) - lost, hour, min, sec);
  }

  lemma MonthRange(t: Date)
    requires Valid(t)
    ensures 1 <= t.m <= 12 && 1 <= t.d <= 31 && 1 <= MarchMonth(t) <= 12
  {
  }

  lemma SmallSum(y: int, mon: int, d: int)
    requires 1969 <= y < U32 && 1 <= mon <= 12 && 1 <= d <= 31
    ensures 0 <= Leaps(y) + 367 * mon / 12 + d < U32
    ensures (367 * mon % U32) == 367 * mon
  {
  }

  /** mktime is the count of seconds since 1970 for exactly those dates whose March year
      times 365 fits in 32 bits: to February of the year 11767034. */
  lemma MktimeIff(t: Date, hour: int, min: int, sec: int)
    requires Valid(t) && 1970 <= t.y < U32 && Clock(hour, min, sec)
    ensures Number(t) >= 0 && DateAt(Number(t)) == t
    ensures Mktime(t.y, t.m, t.d, hour, min, sec) == Seconds(t, hour, min, sec) <==> MarchYear(t) <= 11767033
  {
    hide Valid, Mktime, Seconds, Number;
    DateAtNumber(t);
    MktimeValue(t, hour, min, sec);
    SecondsFit(t, hour, min, sec);
    var k := MarchYear(t) * 365 / U32;
    LossFits(Seconds(t, hour, min, sec), k) by { MarchRange(t); }
    assert k == 0 <==> MarchYear(t) <= 11767033 by { MarchRange(t); }
  }

  lemma MarchRange(t: Date)
    requires 1970 <= t.y < U32
    ensures 1969 <= MarchYear(t) < U32 && 0 <= MarchYear(t) * 365 / U32 < 365
  {
  }

  lemma LossFits(s: int, k: int)
    requires 0 <= s < U64 && 0 <= k < 365
    ensures (s - 86400 * (U32 * k)) % U64 == s <==> k == 0
  {
    var x := 86400 * (U32 * k);
    assert 0 <= x < U64;
    if x > s { assert (s - x) % U64 == s - x + U64; } else { assert (s - x) % U64 == s - x; }
  }

  lemma SecondsFit(t: Date, hour: int, min: int, sec: int)
    requires Valid(t) && 1970 <= t.y < U32 && Clock(hour, min, sec)
    ensures 0 <= Seconds(t, hour, min, sec) < U64
  {
    hide Valid;
    DateAtNumber(t);
    MonthRange(t);
    assert Number(t) < 366 * U32 by { NumberBound(t); }
  }

  lemma NumberBound(t: Date)
    requires Valid(t) && 1970 <= t.y < U32
    ensures Number(t) < 366 * U32
  {
    hide Valid;
    MonthRange(t);
    assert Leaps(MarchYear(t)) <= MarchYear(t) / 4 + MarchYear(t) / 400;
  }

  // ---- Weekday and day of the year --------------------------------------------------------

  function Weekday(year: int, month: int, day: int): int {
    var d := day + if month < 3 then year else year - 2;
    var y := if month < 3 then year - 1 else year;
    (23 * month / 9 + d + 4 + y / 4 - y / 100 + y / 400) % 7
  }

  function YearDay(year: int, month: int, day: int): int
    requires 1 <= month <= 12
  {
    if Leap(year)
    then [0, 0, 31, 60, 91, 121, 152, 182, 213, 244, 274, 305, 335][month] + day
    else [0, 0, 31, 59, 90, 120, 151, 181, 212, 243, 273, 304, 334][month] + day
  }

  lemma MonthShift(m: int)
    requires 1 <= m <= 12
    ensures m >= 3 ==> (23 * m / 9 - 367 * (m - 2) / 12 + 719497) % 7 == 0
    ensures m < 3 ==> (23 * m / 9 - 367 * (m + 10) / 12 + 719500) % 7 == 0
  {
    assert m == 1 || m == 2 || m == 3 || m == 4 || m == 5 || m == 6 || m == 7 || m == 8 || m == 9 || m == 10 ||
        m == 11 || m == 12;
  }

  /** The weekday function gives the day count plus four modulo seven: 0 is Sunday, and
      1 January 1970 was a Thursday. */
  lemma WeekdayCounts(n: nat)
    ensures var t := DateAt(n); Weekday(t.y, t.m, t.d) == (n + 4) % 7
  {
    hide Leaps;
    var t := DateAt(n);
    NumberOfDateAt(n);
    WeekdayOfNumber(t);
  }

  lemma WeekdayOfNumber(t: Date)
    requires Valid(t)
    ensures Weekday(t.y, t.m, t.d) == (Number(t) + 4) % 7
  {
    hide Leaps, Valid;
    MonthRange(t);
    MonthShift(t.m);
    var y := MarchYear(t);
    var v := 23 * t.m / 9 + (t.d + if t.m < 3 then t.y else t.y - 2) + 4 + Leaps(y);
    assert Weekday(t.y, t.m, t.d) == v % 7 by { WeekdayLeaps(t); }
    var shift := if t.m < 3 then 23 * t.m / 9 - 367 * (t.m + 10) / 12 + 719500
                 else 23 * t.m / 9 - 367 * (t.m - 2) / 12 + 719497;
    assert v - (Number(t) + 4) == shift - 364 * y;
    WholeWeeks(shift, y);
    SameRest(v, Number(t) + 4);
  }

  lemma WeekdayLeaps(t: Date)
    ensures Weekday(t.y, t.m, t.d) ==
            (23 * t.m / 9 + (t.d + if t.m < 3 then t.y else t.y - 2) + 4 + Leaps(MarchYear(t))) % 7
  {
  }

  lemma WholeWeeks(a: int, y: int)
    requires a % 7 == 0
    ensures (a - 364 * y) % 7 == 0
  {
    assert a - 364 * y == 7 * (a / 7 - 52 * y);
  }

  lemma SameRest(a: int, b: int)
    requires (a - b) % 7 == 0
    ensures a % 7 == b % 7
  {
  }

  /** The year-day function is one-based: going back that many days less one lands on
      1 January of the same year. */
  lemma {:induction false} YearDayCounts(n: nat)
    ensures Valid(DateAt(n))
    ensures var t := DateAt(n);
            var k := YearDay(t.y, t.m, t.d);
            1 <= k <= n + 1 && DateAt(n + 1 - k) == Date(t.y, 1, 1)
  {
    hide YearDay, Next, Leap, MonthLength, Number;
    NumberOfDateAt(n);
    FirstYearDay();
    if n > 0 {
      YearDayCounts(n - 1);
      YearDayNext(DateAt(n - 1));
    }
  }

  lemma FirstYearDay()
    ensures DateAt(0) == Date(1970, 1, 1) && YearDay(1970, 1, 1) == 1
  {
  }

  lemma YearDayNext(t: Date)
    requires Valid(t)
    ensures Valid(Next(t))
    ensures var u := Next(t);
            YearDay(u.y, u.m, u.d) == if u.y == t.y then YearDay(t.y, t.m, t.d) + 1 else 1
    ensures Next(t).y != t.y ==> Next(t) == Date(t.y + 1, 1, 1)
  {
    hide Leap;
  }
}
