/** The texts of dates, as the expiry texts and CURRENT_TIMESTAMP begin with them, order as the
    days do; so the SQL comparison of the two texts is the comparison of days. */
module DateTexts {
  import opened Instants

  // ---- the calendar ------------------------------------------------------------------------

  datatype Date = Date(year: nat, month: nat, day: nat)

  predicate LeapYear(year: nat) {
    year % 4 == 0 && (year % 100 != 0 || year % 400 == 0)
  }

  function DaysIn(year: nat, month: nat): nat {
    if month == 2 then (if LeapYear(year) then 29 else 28)
    else if month == 4 || month == 6 || month == 9 || month == 11 then 30
    else 31
  }

  predicate InCalendar(d: Date) {
    1 <= d.month <= 12 && 1 <= d.day <= DaysIn(d.year, d.month)
  }

  predicate Before(a: Date, b: Date) {
    a.year < b.year || (a.year == b.year && (a.month < b.month || (a.month == b.month && a.day < b.day)))
  }

  function NextDate(d: Date): (next: Date)
    requires InCalendar(d)
    ensures InCalendar(next) && Before(d, next)
  {
    if d.day < DaysIn(d.year, d.month) then d.(day := d.day + 1)
    else if d.month < 12 then Date(d.year, d.month + 1, 1)
    else Date(d.year + 1, 1, 1)
  }

  const EPOCH := Date(1970, 1, 1)

  /** The date of the day with the number `n`, counted from the epoch. */
  function DateOf(n: nat): (d: Date)
    ensures InCalendar(d)
  {
    if n == 0 then EPOCH else NextDate(DateOf(n - 1))
  }

  lemma {:induction false} DatesAdvance(m: nat, n: nat)
    requires m < n
    ensures Before(DateOf(m), DateOf(n))
    decreases n
  {
    if m < n - 1 {
      DatesAdvance(m, n - 1);
    }
  }

  lemma DatesOrderAsDays(m: nat, n: nat)
    ensures Before(DateOf(m), DateOf(n)) <==> m < n
    ensures DateOf(m) == DateOf(n) <==> m == n
  {
    if m < n {
      DatesAdvance(m, n);
    } else if n < m {
      DatesAdvance(n, m);
    }
  }

  // ---- numbers of a fixed width ------------------------------------------------------------------

  function Power10(width: nat): nat {
    if width == 0 then 1 else 10 * Power10(width - 1)
  }

  /** The number with leading zeros. */
  function Digits(n: nat, width: nat): (text: string)
    ensures |text| == width
  {
    if width == 0 then "" else Digits(n / 10, width - 1) + ['0' + (n % 10) as char]
  }

  lemma {:induction false} LessConcat(a: string, b: string, restA: string, restB: string)
    requires |a| == |b|
    ensures Less(a + restA, b + restB) <==> Less(a, b) || (a == b && Less(restA, restB))
    decreases |a|
  {
    if a == [] {
      assert a + restA == restA && b + restB == restB;
    } else {
      assert (a + restA)[1..] == a[1..] + restA && (b + restB)[1..] == b[1..] + restB;
      assert a == [a[0]] + a[1..] && b == [b[0]] + b[1..];
      LessConcat(a[1..], b[1..], restA, restB);
    }
  }

  lemma SameConcat(a: string, b: string, restA: string, restB: string)
    requires |a| == |b|
    ensures a + restA == b + restB <==> a == b && restA == restB
  {
    assert (a + restA)[..|a|] == a && (a + restA)[|a|..] == restA;
    assert (b + restB)[..|b|] == b && (b + restB)[|b|..] == restB;
  }

  lemma {:induction false} DigitsOrderAsNumbers(m: nat, n: nat, width: nat)
    requires m < Power10(width) && n < Power10(width)
    ensures Less(Digits(m, width), Digits(n, width)) <==> m < n
    ensures Digits(m, width) == Digits(n, width) <==> m == n
    decreases width
  {
    if width > 0 {
      DigitsOrderAsNumbers(m / 10, n / 10, width - 1);
      var a, b := ['0' + (m % 10) as char], ['0' + (n % 10) as char];
      LessConcat(Digits(m / 10, width - 1), Digits(n / 10, width - 1), a, b);
      SameConcat(Digits(m / 10, width - 1), Digits(n / 10, width - 1), a, b);
      assert Less(a, b) <==> m % 10 < n % 10;
    }
  }

  // ---- dates ----------------------------------------------------------------------------------------

  /** `2024-05-01` */
  function DateText(d: Date): (text: string)
    ensures |text| == 10
  {
    Digits(d.year, 4) + ("-" + (Digits(d.month, 2) + ("-" + Digits(d.day, 2))))
  }

  lemma DashedOrder(a: string, b: string)
    ensures Less("-" + a, "-" + b) <==> Less(a, b)
  {
    LessConcat("-", "-", a, b);
  }

  lemma MonthAndDayOrder(a: Date, b: Date)
    requires InCalendar(a) && InCalendar(b)
    ensures
      var restA, restB := Digits(a.month, 2) + ("-" + Digits(a.day, 2)), Digits(b.month, 2) + ("-" + Digits(b.day, 2));
      Less(restA, restB) <==> a.month < b.month || (a.month == b.month && a.day < b.day)
  {
    assert Power10(2) == 100;
    DigitsOrderAsNumbers(a.month, b.month, 2);
    DigitsOrderAsNumbers(a.day, b.day, 2);
    DashedOrder(Digits(a.day, 2), Digits(b.day, 2));
    LessConcat(Digits(a.month, 2), Digits(b.month, 2), "-" + Digits(a.day, 2), "-" + Digits(b.day, 2));
  }

  const LAST_YEAR := 9999

  /** Up to the last year that a date text can hold, texts order as dates. */
  lemma DateTextsOrder(a: Date, b: Date)
    requires InCalendar(a) && InCalendar(b) && a.year <= LAST_YEAR && b.year <= LAST_YEAR
    ensures Less(DateText(a), DateText(b)) <==> Before(a, b)
  {
    assert Power10(4) == 10_000;
    var restA, restB := Digits(a.month, 2) + ("-" + Digits(a.day, 2)), Digits(b.month, 2) + ("-" + Digits(b.day, 2));
    DigitsOrderAsNumbers(a.year, b.year, 4);
    MonthAndDayOrder(a, b);
    DashedOrder(restA, restB);
    LessConcat(Digits(a.year, 4), Digits(b.year, 4), "-" + restA, "-" + restB);
  }

  lemma {:induction false} NotLessThanItself(a: string)
    ensures !Less(a, a)
  {
    if a != [] {
      NotLessThanItself(a[1..]);
    }
  }

  /** The date that an instant's text begins with. */
  function DateOfInstant(instant: nat): Date {
    DateOf(Day(instant))
  }

  /** The comparison that the SQL makes, of the stored text and the current one, is the comparison
      of the two days; their times of day play no part. */
  lemma SqlComparesDays(expiresAt: nat, now: nat, time: string, nowTime: string)
    requires DateOfInstant(expiresAt).year <= LAST_YEAR && DateOfInstant(now).year <= LAST_YEAR
    ensures Less(DateText(DateOfInstant(now)) + " " + nowTime, DateText(DateOfInstant(expiresAt)) + "T" + time)
       <==> OpenInSql(expiresAt, now)
  {
    var date, nowDate := DateOfInstant(expiresAt), DateOfInstant(now);
    LaterText(DateText(nowDate), nowTime, DateText(date), time);
    DateTextsOrder(nowDate, date);
    DateTextsOrder(date, nowDate);
    DatesOrderAsDays(Day(now), Day(expiresAt));
    DatesOrderAsDays(Day(expiresAt), Day(now));
    NotLessThanItself(DateText(date));
  }
}
