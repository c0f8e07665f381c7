/** Date arithmetic of user/time/time.cc against the Gregorian calendar. */
module Calendar {
  import opened Common

  // ---- the calendar ----

  /** A date; centuries may be negative, the year is within the century. */
  datatype Date = Date(day: int, month: int, year: int, century: int)

  predicate Leap(y: int) {
    y % 4 == 0 && (y % 100 != 0 || y % 400 == 0)
  }

  function MonthLength(month: int, leap: bool): int {
    if month == 2 then if leap then 29 else 28
    else if month == 4 || month == 6 || month == 9 || month == 11 then 30 else 31
  }

  function FullYear(d: Date): int {
    d.century * 100 + d.year
  }

  /** The rule in terms of year and century; LeapCentury shows that it is the usual one. */
  predicate LeapDate(d: Date) {
    d.year % 4 == 0 && (d.year != 0 || d.century % 4 == 0)
  }

  predicate RealDate(d: Date) {
    && 0 <= d.year < 100
    && 1 <= d.month <= 12
    && 1 <= d.day <= MonthLength(d.month, LeapDate(d))
  }

  function YearLength(y: int): int {
    if Leap(y) then 366 else 365
  }

  /** Days from 1 January of year 0 to 1 January of year `y`, year by year. */
  function YearStart(y: int): int
    decreases if y < 0 then -y else y
  {
    if y == 0 then 0 else if y > 0 then YearStart(y - 1) + YearLength(y - 1) else YearStart(y + 1) - YearLength(y)
  }

  /** Days of the year before the first of `month`. */
  function MonthStart(month: int, leap: bool): int
    decreases month
  {
    if month <= 1 then 0 else MonthStart(month - 1, leap) + MonthLength(month - 1, leap)
  }

  /** From March on the months are 31, 30, 31, 30, 31 days long, over and over: the days before the first
      of a month in closed form; month 13 is the end of the year. */
  lemma {:induction false} MonthsClosed(month: int, leap: bool)
    requires 1 <= month <= 13
    ensures month == 1 ==> MonthStart(month, leap) == 0
    ensures month == 2 ==> MonthStart(month, leap) == 31
    ensures month >= 3 ==> MonthStart(month, leap) == (153 * (month - 3) + 2) / 5 + 59 + if leap then 1 else 0
  {
    if month > 1 { MonthsClosed(month - 1, leap); }
  }

  /** The number of a day, counted from 1 January of year 0. */
  function Days(d: Date): int {
    YearStart(FullYear(d)) + MonthStart(d.month, LeapDate(d)) + d.day - 1
  }

  /** Sunday is 1; 1 January of year 0 was a Saturday. */
  function WeekdayOf(n: int): int
    decreases if n < 0 then -n else n
  {
    if n == 0 then 7 else if n > 0 then DayAfterWeekday(WeekdayOf(n - 1)) else DayBeforeWeekday(WeekdayOf(n + 1))
  }

  function DayAfterWeekday(w: int): int {
    if w == 7 then 1 else w + 1
  }

  function DayBeforeWeekday(w: int): int {
    if w == 1 then 7 else w - 1
  }

  const CYCLE := 3652425 // days in 10000 years

  /** Leap years from year 0 up to, but not including, `y`, in closed form (negative before year 0). */
  function LeapsBefore(y: int): int {
    (y + 3) / 4 - (y + 99) / 100 + (y + 399) / 400
  }

  /** Counting year by year agrees with the closed form. */
  lemma {:induction false} YearsClosed(y: int)
    ensures YearStart(y) == 365 * y + LeapsBefore(y)
    decreases if y < 0 then -y else y
  {
    if y > 0 {
      YearsClosed(y - 1);
      LeapStep(y - 1);
    } else if y < 0 {
      YearsClosed(y + 1);
      LeapStep(y);
    }
  }

  lemma LeapStep(y: int)
    ensures LeapsBefore(y + 1) == LeapsBefore(y) + if Leap(y) then 1 else 0
  {
    By4(y);
    By100(y);
    By400(y);
    Multiples(y);
  }

  lemma By4(y: int)
    ensures (y + 4) / 4 == (y + 3) / 4 + if y % 4 == 0 then 1 else 0
  {
  }

  lemma By100(y: int)
    ensures (y + 100) / 100 == (y + 99) / 100 + if y % 100 == 0 then 1 else 0
  {
  }

  lemma By400(y: int)
    ensures (y + 400) / 400 == (y + 399) / 400 + if y % 400 == 0 then 1 else 0
  {
  }

  lemma Times100(k: int)
    ensures (100 * k) % 100 == 0
  {
  }

  lemma Times4(k: int)
    ensures (4 * k) % 4 == 0
  {
  }

  lemma Multiples(y: int)
    ensures y % 400 == 0 ==> y % 100 == 0
    ensures y % 100 == 0 ==> y % 4 == 0
  {
    if y % 100 == 0 {
      assert y == 4 * (25 * (y / 100));
      Times4(25 * (y / 100));
    }
    if y % 400 == 0 {
      assert y == 100 * (4 * (y / 400));
      Times100(4 * (y / 400));
    }
  }

  lemma LeapCentury(d: Date)
    requires 0 <= d.year < 100
    ensures LeapDate(d) <==> Leap(FullYear(d))
  {
    var year, century := d.year, d.century;
    var y := FullYear(d);
    assert y == 4 * (25 * century) + year;
    Remainder4(25 * century, year);
    Remainder100(century, year);
    if year == 0 {
      assert y == 400 * (century / 4) + 100 * (century % 4);
      Remainder400(century / 4, 100 * (century % 4));
    } else {
      Multiples(y);
    }
  }

  lemma Remainder4(k: int, r: int)
    ensures (4 * k + r) % 4 == r % 4
  {
  }

  lemma Remainder100(k: int, r: int)
    requires 0 <= r < 100
    ensures (100 * k + r) % 100 == r
  {
  }

  lemma Remainder400(k: int, r: int)
    requires 0 <= r < 400
    ensures (400 * k + r) % 400 == r
  {
  }

  lemma YearStep(y: int)
    ensures YearStart(y + 1) == YearStart(y) + YearLength(y)
  {
  }

  lemma {:induction false} YearsGrow(a: int, b: int)
    requires a < b
    ensures YearStart(a + 1) <= YearStart(b)
    decreases b - a
  {
    if a + 1 < b {
      YearsGrow(a, b - 1);
      YearStep(b - 1);
    }
  }

  /** The calendar repeats after 10000 years, to the day of the week. */
  lemma YearsRepeat(y: int, z: int)
    requires z == y + 10000
    ensures YearStart(z) == YearStart(y) + CYCLE && CYCLE % 7 == 0
  {
    YearsClosed(y);
    YearsClosed(z);
    Shift4(y + 3, 2500);
    Shift100(y + 99, 100);
    Shift400(y + 399, 25);
  }

  lemma Shift4(x: int, k: int)
    ensures (x + 4 * k) / 4 == x / 4 + k
  {
  }

  lemma Shift100(x: int, k: int)
    ensures (x + 100 * k) / 100 == x / 100 + k
  {
  }

  lemma Shift400(x: int, k: int)
    ensures (x + 400 * k) / 400 == x / 400 + k
  {
  }

  lemma {:induction false} MonthsGrow(a: int, b: int, leap: bool)
    requires 1 <= a < b
    ensures MonthStart(a, leap) + MonthLength(a, leap) <= MonthStart(b, leap)
    decreases b
  {
    if a + 1 < b { MonthsGrow(a, b - 1, leap); }
  }

  lemma WholeYear(leap: bool)
    ensures MonthStart(13, leap) == if leap then 366 else 365
  {
    assert MonthStart(4, leap) == if leap then 91 else 90;
    assert MonthStart(7, leap) == if leap then 182 else 181;
    assert MonthStart(10, leap) == if leap then 274 else 273;
  }

  lemma InYear(d: Date)
    requires RealDate(d)
    ensures YearStart(FullYear(d)) <= Days(d) < YearStart(FullYear(d) + 1)
  {
    LeapCentury(d);
    MonthsGrow(d.month, 13, LeapDate(d));
    WholeYear(LeapDate(d));
    YearStep(FullYear(d));
    if d.month > 1 { MonthsGrow(1, d.month, LeapDate(d)); }
  }

  lemma SameYear(y: int, z: int, n: int)
    requires YearStart(y) <= n < YearStart(y + 1) && YearStart(z) <= n < YearStart(z + 1)
    ensures y == z
  {
    if y < z { YearsGrow(y, z); }
    if z < y { YearsGrow(z, y); }
  }

  lemma SplitYear(y: int, c: int, z: int, e: int)
    requires c * 100 + y == e * 100 + z && 0 <= y < 100 && 0 <= z < 100
    ensures c == e && y == z
  {
  }

  lemma SameDay(m: int, n: int, a: int, b: int, leap: bool)
    requires 1 <= m <= 12 && 1 <= n <= 12 && 1 <= a <= MonthLength(m, leap) && 1 <= b <= MonthLength(n, leap)
    requires MonthStart(m, leap) + a == MonthStart(n, leap) + b
    ensures m == n && a == b
  {
    if m < n { MonthsGrow(m, n, leap); }
    if n < m { MonthsGrow(n, m, leap); }
  }

  /** Different dates have different numbers: counting days forgets nothing. */
  lemma DaysInjective(d: Date, e: Date)
    requires RealDate(d) && RealDate(e) && Days(d) == Days(e)
    ensures d == e
  {
    InYear(d);
    InYear(e);
    SameYear(FullYear(d), FullYear(e), Days(d));
    SplitYear(d.year, d.century, e.year, e.century);
    SameDay(d.month, e.month, d.day, e.day, LeapDate(d));
  }

  // ---- the code ----

  const DAYS_PER_MONTH := [0, 31, 28, 31, 30, 31, 30, 31, 31, 30, 31, 30, 31]
  const WORD := 0x1_0000       // uint16_t

  /** A `uint16_t` read as a signed number: what is left when a century below 0 wraps around. */
  function Signed(x: nat): int {
    if x < 0x8000 then x else x - WORD
  }

  function GetDaysPerMonth(month: nat, year: nat, century: nat): nat {
    if month == 2 && year % 4 == 0 && (year != 0 || century % 4 == 0) then DAYS_PER_MONTH[month] + 1
    else DAYS_PER_MONTH[if month < 13 then month else 0]
  }

  /** The stored fields decide leap years as the calendar does, also for a century that wrapped. */
  lemma MonthLengthAgrees(month: nat, year: nat, century: nat)
    requires 1 <= month <= 12 && year < 100 && century < WORD
    ensures GetDaysPerMonth(month, year, century) == MonthLength(month, LeapDate(Date(1, month, year, Signed(century))))
  {
    if century >= 0x8000 {
      assert century == 4 * 0x4000 + Signed(century);
      Remainder4(0x4000, Signed(century));
    }
  }

  /** The number of the day after day `n`; the calendar starts over after 10000 years. */
  function Following(n: int): int {
    if n + 1 == CYCLE then 0 else n + 1
  }

  lemma CycleStart(y: int)
    requires y == 10000
    ensures YearStart(y) == CYCLE
  {
    YearsRepeat(y - 10000, y);
  }

  lemma BeforeCycle(d: Date)
    requires RealDate(d) && FullYear(d) < 10000
    ensures Days(d) < CYCLE
  {
    InYear(d);
    var end := FullYear(d) + (10000 - FullYear(d));
    CycleStart(end);
    if FullYear(d) + 1 < end { YearsGrow(FullYear(d), end); }
  }

  lemma NextInMonth(d: Date)
    requires RealDate(d) && d.day < MonthLength(d.month, LeapDate(d))
    ensures RealDate(d.(day := d.day + 1)) && Days(d.(day := d.day + 1)) == Days(d) + 1
  {
  }

  lemma NextInYear(d: Date)
    requires RealDate(d) && d.day == MonthLength(d.month, LeapDate(d)) && d.month < 12
    ensures var e := d.(day := 1, month := d.month + 1); RealDate(e) && Days(e) == Days(d) + 1
  {
  }

  lemma NewYear(d: Date, e: Date)
    requires RealDate(d) && d.day == 31 && d.month == 12
    requires RealDate(e) && e.day == 1 && e.month == 1 && FullYear(e) == FullYear(d) + 1
    ensures Days(e) == Days(d) + 1
  {
    LeapCentury(d);
    WholeYear(LeapDate(d));
    YearStep(FullYear(d));
  }

  lemma NewAge(d: Date, e: Date)
    requires RealDate(d) && d.day == 31 && d.month == 12 && FullYear(d) == 9999
    requires RealDate(e) && e.day == 1 && e.month == 1 && FullYear(e) == 0
    ensures Days(e) == 0 && Days(d) + 1 == CYCLE
  {
    LeapCentury(d);
    WholeYear(LeapDate(d));
    YearStep(FullYear(d));
    CycleStart(FullYear(d) + 1);
  }

  lemma DayAfter(d: Date, e: Date)
    requires RealDate(d) && FullYear(d) < 10000
    requires
      if d.day < MonthLength(d.month, LeapDate(d)) then e == d.(day := d.day + 1)
      else if d.month < 12 then e == d.(day := 1, month := d.month + 1)
      else e.day == 1 && e.month == 1 && 0 <= e.year < 100 && FullYear(e) == if FullYear(d) == 9999 then 0 else FullYear(d) + 1
    ensures RealDate(e) && Days(e) == Following(Days(d))
  {
    if d.day < MonthLength(d.month, LeapDate(d)) {
      NextInMonth(d);
      BeforeCycle(e);
    } else if d.month < 12 {
      NextInYear(d);
      BeforeCycle(e);
    } else if FullYear(d) == 9999 {
      NewAge(d, e);
    } else {
      NewYear(d, e);
      BeforeCycle(e);
    }
  }

  lemma DayBefore(d: Date, e: Date)
    requires RealDate(d)
    requires
      if d.day > 1 then e == d.(day := d.day - 1)
      else if d.month > 1 then e == d.(month := d.month - 1, day := MonthLength(d.month - 1, LeapDate(d)))
      else e.day == 31 && e.month == 12 && 0 <= e.year < 100 && FullYear(e) == FullYear(d) - 1
    ensures RealDate(e) && Days(e) == Days(d) - 1
  {
    if d.day > 1 {
      NextInMonth(e);
    } else if d.month > 1 {
      NextInYear(e);
    } else {
      NewYear(e, d);
    }
  }

  lemma WeekdayBefore(n: int)
    ensures 1 <= WeekdayOf(n) <= 7 && WeekdayOf(n - 1) == DayBeforeWeekday(WeekdayOf(n))
  {
    WeekdayClosed(n);
    WeekdayClosed(n - 1);
  }

  /** What one decrement can reach does not go below the century before year 0. */
  lemma CenturyRange(d: Date)
    requires RealDate(d) && -36524 <= Days(d) < CYCLE
    ensures -1 <= d.century < 100
  {
    InYear(d);
    if FullYear(d) >= 10000 {
      var end := FullYear(d) - (FullYear(d) - 10000);
      CycleStart(end);
      if end < FullYear(d) { YearsGrow(end, FullYear(d)); YearStep(end); }
    }
    if FullYear(d) < -100 {
      var floor := FullYear(d) - (FullYear(d) + 100);
      YearsGrow(FullYear(d), floor);
      YearsClosed(floor);
    }
  }

  lemma {:induction false} WeekdayClosed(n: int)
    ensures WeekdayOf(n) == (n + 6) % 7 + 1
    decreases if n < 0 then -n else n
  {
    if n > 0 { WeekdayClosed(n - 1); }
    if n < 0 { WeekdayClosed(n + 1); }
  }

  lemma WeekdayAfter(n: int)
    ensures 1 <= WeekdayOf(n) <= 7 && WeekdayOf(Following(n)) == DayAfterWeekday(WeekdayOf(n))
  {
    WeekdayClosed(n);
    WeekdayClosed(n + 1);
    if n + 1 == CYCLE { WeekdayClosed(n + 1 - CYCLE); }
  }

  lemma ModBelow(x: nat, n: nat)
    requires x < n
    ensures x % n == x
  {
  }

  lemma ModSelf(n: nat)
    requires n > 0
    ensures n % n == 0
  {
  }

  lemma Carry(x: nat, n: nat)
    requires 0 < x <= n < WORD
    ensures x % WORD % n == if x == n then 0 else x
  {
    ModBelow(x, WORD);
    if x == n { ModSelf(n); } else { ModBelow(x, n); }
  }

  lemma NotWhole24(n: int, k: nat, total: int)
    requires 0 < k < 24
    ensures n * 24 + k != total * 24
  {
  }

  lemma NotWhole60(n: int, k: nat, total: int)
    requires 0 < k < 60
    ensures n * 60 + k != total * 60
  {
  }

  method NextWeekday(w: nat) returns (r: nat)
    requires 1 <= w <= 7
    ensures r == DayAfterWeekday(w)
  {
    r := w % 7 + 1;
  }

  method LastDay(month: nat, year: nat, century: nat) returns (n: nat)
    requires 1 <= month <= 12 && year < 100 && century < WORD
    ensures n == MonthLength(month, LeapDate(Date(1, month, year, Signed(century))))
  {
    MonthLengthAgrees(month, year, century);
    n := GetDaysPerMonth(month, year, century);
  }

  /** `++x %= n` on a `uint16_t`. */
  method Bump(x: nat, n: nat) returns (r: nat)
    requires x < n < WORD
    ensures r == if x + 1 == n then 0 else x + 1
  {
    Carry(x + 1, n);
    r := (x + 1) % WORD % n;
  }

  class Time {
    var second: nat
    var minute: nat
    var hour: nat
    var day: nat
    var month: nat
    var year: nat
    var weekday: nat
    var century: nat
    var timezone: int

    constructor (timezone: int)
      ensures this.timezone == timezone
    {
      this.timezone := timezone;
    }

    ghost function TheDate(): Date
      reads this
    {
      Date(day, month, year, Signed(century))
    }

    /** Every field in range (the century as a wrapped number), the weekday that of the date. */
    ghost predicate OnClock()
      reads this
    {
      && second < 60 && minute < 60 && hour < 24 && century < WORD
      && RealDate(TheDate())
      && weekday == WeekdayOf(Days(TheDate()))
    }

    ghost function Hours(): int
      reads this
    {
      Days(TheDate()) * 24 + hour
    }

    ghost function Minutes(): int
      reads this
    {
      Hours() * 60 + minute
    }

    /** Seconds since the start of year 0, negative before it. */
    ghost function Seconds(): int
      reads this
    {
      Minutes() * 60 + second
    }

    /** One century below year 0 can be told apart; that is all that one decrement can reach. */
    ghost predicate Tellable()
      reads this
    {
      -1 <= Signed(century) < 100
    }

    method NextYear()
      requires century < WORD && year < 100 && Tellable()
      modifies this`year, this`century
      ensures century < WORD && year < 100 && Tellable()
      ensures var y := old(Signed(century) * 100 + year) + 1;
              Signed(century) * 100 + year == if y == 10000 then 0 else y
    {
      year := Bump(year, 100);
      if year != 0 { return; }
      century := (century + 1) % WORD % 100; // 65535 stands for -1 and goes to 0
    }

    method NextMonth()
      requires century < WORD && year < 100 && 1 <= month <= 12 && Tellable()
      modifies this`month, this`year, this`century
      ensures century < WORD && year < 100 && 1 <= month <= 12 && Tellable()
      ensures old(month) < 12 ==> month == old(month) + 1 && year == old(year) && century == old(century)
      ensures old(month) == 12 ==> month == 1
      ensures old(month) == 12 ==>
        var y := old(Signed(century) * 100 + year) + 1;
        Signed(century) * 100 + year == if y == 10000 then 0 else y
    {
      month := Bump(month, 13);
      if month != 0 { return; }
      month := month + 1;
      NextYear();
    }

    method NextDay()
      requires century < WORD && RealDate(TheDate()) && Tellable() && weekday == WeekdayOf(Days(TheDate()))
      modifies this`weekday, this`day, this`month, this`year, this`century
      ensures century < WORD && RealDate(TheDate()) && Tellable() && weekday == WeekdayOf(Days(TheDate()))
      ensures Days(TheDate()) == Following(old(Days(TheDate())))
    {
      WeekdayAfter(Days(TheDate()));
      weekday := NextWeekday(weekday);
      var length := LastDay(month, year, century);
      day := Bump(day, length + 1);
      if day == 0 {
        day := 1;
        NextMonth();
      }
      DayAfter(old(TheDate()), TheDate());
    }

    method NextHour()
      requires OnClock() && Tellable()
      modifies this`hour, this`weekday, this`day, this`month, this`year, this`century
      ensures OnClock() && Tellable()
      ensures Hours() == if old(Hours()) + 1 == CYCLE * 24 then 0 else old(Hours()) + 1
    {
      hour := Bump(hour, 24);
      assert TheDate() == old(TheDate());
      if hour != 0 {
        NotWhole24(Days(TheDate()), hour, CYCLE);
        return;
      }
      NextDay();
    }

    /** One round of the loop in `increment_seconds`. */
    method NextMinute()
      requires OnClock() && Tellable()
      modifies this`minute, this`hour, this`weekday, this`day, this`month, this`year, this`century
      ensures OnClock() && Tellable()
      ensures Minutes() == if old(Minutes()) + 1 == CYCLE * 1440 then 0 else old(Minutes()) + 1
    {
      minute := Bump(minute, 60);
      assert TheDate() == old(TheDate());
      if minute != 0 {
        NotWhole60(Hours(), minute, CYCLE * 24);
        return;
      }
      NextHour();
    }

    lemma InAge()
      requires OnClock() && Tellable()
      ensures Minutes() < CYCLE * 1440
    {
      BeforeCycle(TheDate());
    }

    /** `increment_seconds`.  A sum that does not fit into 32 bits changes nothing; any other is exact, and
        the calendar starts over after the year 9999. */
    method IncrementSeconds(amount: nat) returns (done: bool)
      requires OnClock() && Tellable() && amount < BITS32
      modifies this
      ensures OnClock() && Tellable() && timezone == old(timezone)
      ensures done <==> old(second) + amount < BITS32
      ensures done ==> Seconds() == WrapSeconds(old(Seconds()) + amount)
      ensures !done ==> unchanged(this)
    {
      Overflow(second, amount);
      done := (second + amount) % BITS32 >= second;
      if !done { return; }
      var a := CarryMinutes(amount);
      second := (second + a) % BITS32 % WORD;
    }

    /** The loop of `increment_seconds`.  Its counter wraps below 0 in the last round if need be. */
    method CarryMinutes(amount: nat) returns (a: nat)
      requires OnClock() && Tellable() && second + amount < BITS32
      modifies this`minute, this`hour, this`weekday, this`day, this`month, this`year, this`century
      ensures OnClock() && Tellable() && (second + a) % BITS32 % WORD < 60
      ensures Minutes() * 60 + (second + a) % BITS32 % WORD == WrapSeconds(old(Seconds()) + amount)
    {
      Overflow(second, amount);
      a := amount;
      while (second + a) % BITS32 >= 60
        invariant OnClock() && Tellable() && a < BITS32
        invariant WrapSeconds(Minutes() * 60 + (second + a) % BITS32) == WrapSeconds(old(Seconds()) + amount)
        decreases (second + a) % BITS32
      {
        a := CarryMinute(a);
      }
      InAge();
      Truncate((second + a) % BITS32);
    }

    method CarryMinute(a: nat) returns (b: nat)
      requires OnClock() && Tellable() && a < BITS32 && (second + a) % BITS32 >= 60
      modifies this`minute, this`hour, this`weekday, this`day, this`month, this`year, this`century
      ensures OnClock() && Tellable() && b < BITS32 && (second + b) % BITS32 == (second + a) % BITS32 - 60
      ensures WrapSeconds(Minutes() * 60 + (second + b) % BITS32) == WrapSeconds(old(Minutes()) * 60 + (second + a) % BITS32)
    {
      InAge();
      CarryStep(Minutes(), (second + a) % BITS32);
      Underflow(second, a);
      NextMinute();
      b := (a - 60) % BITS32;
    }

    method PrevYear()
      requires century < WORD && year < 100 && Signed(century) > -0x8000
      modifies this`year, this`century
      ensures century < WORD && year < 100 && Signed(century) * 100 + year == old(Signed(century) * 100 + year) - 1
    {
      year := if year == 0 then 99 else year - 1;
      if year != 99 { return; }
      century := (century + WORD - 1) % WORD;
    }

    method PrevDay()
      requires century < WORD && RealDate(TheDate()) && weekday == WeekdayOf(Days(TheDate())) && Signed(century) > -0x8000
      modifies this`weekday, this`day, this`month, this`year, this`century
      ensures century < WORD && RealDate(TheDate()) && weekday == WeekdayOf(Days(TheDate()))
      ensures Days(TheDate()) == old(Days(TheDate())) - 1
    {
      WeekdayBefore(Days(TheDate()));
      weekday := if weekday == 1 then 7 else weekday - 1;
      if day != 1 {
        day := day - 1;
      } else {
        month := if month == 1 then 12 else month - 1;
        day := LastDay(month, year, century);
        if month == 12 { PrevYear(); }
      }
      DayBefore(old(TheDate()), TheDate());
    }

    method PrevHour()
      requires OnClock() && Signed(century) > -0x8000
      modifies this`hour, this`weekday, this`day, this`month, this`year, this`century
      ensures OnClock() && Hours() == old(Hours()) - 1
    {
      hour := if hour == 0 then 23 else hour - 1;
      assert TheDate() == old(TheDate());
      if hour != 23 { return; }
      PrevDay();
    }

    /** One round of the loop in `decrement_seconds`. */
    method PrevMinute()
      requires OnClock() && Tellable() && Minutes() > -36524 * 1440
      modifies this`minute, this`hour, this`weekday, this`day, this`month, this`year, this`century
      ensures OnClock() && Tellable() && Minutes() == old(Minutes()) - 1
    {
      minute := if minute == 0 then 59 else minute - 1;
      assert TheDate() == old(TheDate());
      if minute != 59 { return; }
      BeforeCycle(TheDate());
      PrevHour();
      CenturyRange(TheDate());
    }

    lemma FromYearZero()
      requires OnClock()
      ensures Signed(century) >= 0 <==> Seconds() >= 0
    {
      InYear(TheDate());
      if Signed(century) >= 0 {
        YearsFromZero(FullYear(TheDate()));
      } else {
        YearsToZero(FullYear(TheDate()) + 1);
      }
    }

    /** `decrement_seconds`, whose assertion stops an amount that is not positive. */
    method DecrementSeconds(amount: int) returns (done: bool)
      requires OnClock() && 0 <= Signed(century) < 100 && -0x8000_0000 <= amount < 0x8000_0000
      modifies this
      ensures done <==> amount > 0
      ensures OnClock() && Tellable() && timezone == old(timezone)
      ensures Seconds() == if done then old(Seconds()) - amount else old(Seconds())
      ensures Signed(century) >= 0 <==> Seconds() >= 0
    {
      FromYearZero();
      done := amount > 0;
      if !done { return; }
      ghost var start := Seconds();
      var a := amount;
      while second - a < 0
        invariant OnClock() && Tellable() && timezone == old(timezone) && second == old(second)
        invariant second - a < 60 && Minutes() * 60 + second - a == start - amount
        decreases a
      {
        PrevMinute();
        a := a - 60;
      }
      second := second - a;
      FromYearZero();
    }

    /** `apply_timezone` moves the clock by whole hours; a zone of 0 runs into the assertion. */
    method ApplyTimezone() returns (done: bool)
      requires OnClock() && 0 <= Signed(century) < 100 && -0x8000 <= timezone < 0x8000
      modifies this
      ensures done <==> timezone != 0
      ensures OnClock() && timezone == old(timezone) && Seconds() == WrapSeconds(old(Seconds()) + timezone * 3600)
    {
      InAge();
      if timezone > 0 {
        done := IncrementSeconds(timezone * 60 * 60);
      } else {
        done := DecrementSeconds(-timezone * 60 * 60);
      }
    }

    /** All fields but the time zone. */
    ghost function Fields(): (nat, nat, nat, Date, nat)
      reads this
    {
      (second, minute, hour, TheDate(), weekday)
    }
  }

  /** The day numbers are those in common use: 1 January 1970 is day 719528, a Thursday. */
  lemma Epoch(d: Date)
    requires d.day == 1 && d.month == 1 && FullYear(d) == 1970
    ensures Days(d) == 719528 && WeekdayOf(Days(d)) == 5
  {
    YearsClosed(FullYear(d));
    WeekdayClosed(Days(d));
  }

  /** The instant in numbers: seconds since the start of year 0, in a cycle of 10000 years. */
  lemma InstantInNumbers(t: Time)
    requires t.OnClock() && t.Tellable()
    ensures t.second < 60 && t.minute < 60 && t.hour < 24
    ensures t.Seconds() == 86400 * Days(t.TheDate()) + 3600 * t.hour + 60 * t.minute + t.second
    ensures t.Seconds() < 315569520000 == AGE
  {
    t.InAge();
  }

  /** An instant determines every field. */
  twostate lemma SameInstant(t: Time)
    requires old(t.OnClock()) && t.OnClock() && old(t.Seconds()) == t.Seconds()
    ensures t.Fields() == old(t.Fields())
  {
    DaysInjective(old(t.TheDate()), t.TheDate());
  }

  /** Incrementing and then decrementing by the same amount restores every field, unless the calendar
      started over in between. */
  method ForthAndBack(t: Time, n: int)
    requires t.OnClock() && 0 <= Signed(t.century) < 100 && 0 < n < 0x8000_0000
    modifies t
    ensures t.Fields() == old(t.Fields()) <==> old(t.Seconds()) + n < AGE
  {
    t.InAge();
    t.FromYearZero();
    var done := t.IncrementSeconds(n);
    t.FromYearZero();
    done := t.DecrementSeconds(n);
    if old(t.Seconds()) + n < AGE { SameInstant(t); }
  }

  /** Decrementing and then incrementing restores every field, even from before year 0. */
  method BackAndForth(t: Time, n: int)
    requires t.OnClock() && 0 <= Signed(t.century) < 100 && 0 < n < 0x8000_0000
    modifies t
    ensures t.Fields() == old(t.Fields())
  {
    t.InAge();
    var done := t.DecrementSeconds(n);
    done := t.IncrementSeconds(n);
    SameInstant(t);
  }

  const AGE := CYCLE * 86400

  function WrapSeconds(n: int): int {
    if n >= AGE then n - AGE else n
  }

  lemma {:induction false} YearsFromZero(y: nat)
    ensures YearStart(y) >= 0
  {
    if y > 0 { YearsFromZero(y - 1); }
  }

  lemma {:induction false} YearsToZero(y: int)
    requires y <= 0
    ensures YearStart(y) <= 0
    decreases -y
  {
    if y < 0 { YearsToZero(y + 1); }
  }

  lemma CarryStep(m: int, left: int)
    requires m < CYCLE * 1440 && 60 <= left < BITS32
    ensures WrapSeconds((if m + 1 == CYCLE * 1440 then 0 else m + 1) * 60 + left - 60) == WrapSeconds(m * 60 + left)
  {
  }

  lemma Underflow(second: nat, a: nat)
    requires second < 60 && a < BITS32 && (second + a) % BITS32 >= 60
    ensures (second + (a - 60) % BITS32) % BITS32 == (second + a) % BITS32 - 60
  {
  }

  lemma Truncate(left: nat)
    requires left < 60
    ensures left % WORD == left
  {
  }

  lemma Overflow(second: nat, amount: nat)
    requires second < 60 && amount < BITS32
    ensures (second + amount) % BITS32 >= second <==> second + amount < BITS32
    ensures second + amount < BITS32 ==> (second + amount) % BITS32 == second + amount
  {
  }
}
