/** The Gregorian calendar day by day, and why capture keys and windows follow it. */
module Calendar {
  import opened Wrappers
  import opened Aggregator
  import Rollup

  /** Months are numbered from 1. */
  datatype Date = Date(year: int, month: int, day: int)

  /** Every fourth year, but of the centuries only every fourth. */
  predicate HasLeapDay(year: int) { if year % 100 == 0 then year % 400 == 0 else year % 4 == 0 }

  function MonthLength(year: int, month: int): int {
    if month == 2 then (if HasLeapDay(year) then 29 else 28)
    else if month in {4, 6, 9, 11} then 30
    else 31
  }

  predicate IsDate(d: Date) { 1 <= d.month <= 12 && 1 <= d.day <= MonthLength(d.year, d.month) }

  function NextDay(d: Date): Date {
    if d.day < MonthLength(d.year, d.month) then Date(d.year, d.month, d.day + 1)
    else if d.month < 12 then Date(d.year, d.month + 1, 1)
    else Date(d.year + 1, 1, 1)
  }

  /** k days later. */
  function After(d: Date, k: nat): Date { if k == 0 then d else NextDay(After(d, k - 1)) }

  function Midnight(d: Date): int { DateUtc(d.year, d.month - 1, d.day) }

  lemma EpochIsZero()
    ensures Midnight(Date(1970, 1, 1)) == 0
  {
  }

  lemma Quotients(n: int, m: int)
    requires m > 0
    ensures n / m == (n - 1) / m + (if n % m == 0 then 1 else 0)
  {
    var q, r := (n - 1) / m, (n - 1) % m;
    assert n - 1 == q * m + r;
    if r == m - 1 {
      UniqueQuotient(n, m, q + 1, 0);
    } else {
      UniqueQuotient(n, m, q, r + 1);
    }
  }

  lemma UniqueQuotient(n: int, m: int, q: int, r: int)
    requires m > 0 && 0 <= r < m && n == q * m + r
    ensures n / m == q && n % m == r
  {
    var x := n / m - q;
    assert x * m == r - n % m;
    assert x >= 1 ==> x * m >= m;
    assert x <= -1 ==> x * m <= -m;
  }

  lemma Fourths(year: int)
    ensures (year - 1968) / 4 == (year - 1969) / 4 + (if year % 4 == 0 then 1 else 0)
  {
    Quotients(year - 1968, 4);
  }

  lemma Centuries(year: int)
    ensures (year - 1900) / 100 == (year - 1901) / 100 + (if year % 100 == 0 then 1 else 0)
  {
    Quotients(year - 1900, 100);
  }

  lemma FourCenturies(year: int)
    ensures (year - 1600) / 400 == (year - 1601) / 400 + (if year % 400 == 0 then 1 else 0)
  {
    Quotients(year - 1600, 400);
  }

  lemma CenturiesAreFourths(year: int)
    ensures year % 400 == 0 ==> year % 100 == 0
    ensures year % 100 == 0 ==> year % 4 == 0
  {
  }

  lemma YearLength(year: int)
    ensures DayFromYear(year + 1) == DayFromYear(year) + (if HasLeapDay(year) then 366 else 365)
  {
    hide HasLeapDay;
    Fourths(year);
    Centuries(year);
    FourCenturies(year);
    CenturiesAreFourths(year);
    assert DayFromYear(year + 1) == 365 * (year - 1969) + (year - 1968) / 4 - (year - 1900) / 100 + (year - 1600) / 400;
    LeapCount(year, if year % 4 == 0 then 1 else 0, if year % 100 == 0 then 1 else 0, if year % 400 == 0 then 1 else 0);
  }

  lemma LeapCount(year: int, fourth: int, century: int, fourCenturies: int)
    requires fourth == (if year % 4 == 0 then 1 else 0) && century == (if year % 100 == 0 then 1 else 0)
    requires fourCenturies == if year % 400 == 0 then 1 else 0
    requires (year % 400 == 0 ==> year % 100 == 0) && (year % 100 == 0 ==> year % 4 == 0)
    ensures fourth - century + fourCenturies == if HasLeapDay(year) then 1 else 0
  {
  }

  lemma LeapRule(year: int)
    ensures IsLeap(year) <==> HasLeapDay(year)
  {
  }

  /** The first of a month is the day after the last of the month before. */
  lemma MonthFollows(year: int, month: int)
    requires 1 <= month <= 11
    ensures DaysBeforeMonth(year, month) == DaysBeforeMonth(year, month - 1) + MonthLength(year, month)
  {
    LeapRule(year);
    hide IsLeap, HasLeapDay;
  }

  lemma YearFollows(year: int)
    ensures DaysBeforeMonth(year, 11) + MonthLength(year, 12) == if HasLeapDay(year) then 366 else 365
  {
    LeapRule(year);
    hide IsLeap, HasLeapDay;
  }

  /** The days from 1 January 1970. */
  function DayNumber(d: Date): int
    requires 1 <= d.month <= 12
  {
    DayFromYear(d.year) + DaysBeforeMonth(d.year, d.month - 1) + d.day - 1
  }

  lemma MidnightOf(d: Date)
    requires 1 <= d.month <= 12 && d.year >= 100
    ensures Midnight(d) == DayNumber(d) * DAY_MS
  {
    hide DayFromYear, DaysBeforeMonth;
  }

  lemma NextDayNumber(d: Date)
    requires IsDate(d)
    ensures IsDate(NextDay(d)) && DayNumber(NextDay(d)) == DayNumber(d) + 1
  {
    YearLength(d.year);
    YearFollows(d.year);
    assert DaysBeforeMonth(d.year + 1, 0) == 0;
    if d.month <= 11 {
      MonthFollows(d.year, d.month);
    }
    hide DayFromYear, DaysBeforeMonth, HasLeapDay;
  }

  /** From the year 100 on, the instant of the next day is one day later, across months and years. */
  lemma NextDayFollows(d: Date)
    requires IsDate(d) && d.year >= 100
    ensures IsDate(NextDay(d)) && NextDay(d).year >= 100 && Midnight(NextDay(d)) == Midnight(d) + DAY_MS
  {
    NextDayNumber(d);
    MidnightOf(d);
    MidnightOf(NextDay(d));
    hide DayNumber, Midnight, MonthLength;
  }

  lemma {:induction false} AfterFollows(d: Date, k: nat)
    requires IsDate(d) && d.year >= 100
    ensures IsDate(After(d, k)) && After(d, k).year >= 100 && Midnight(After(d, k)) == Midnight(d) + k * DAY_MS
  {
    if k > 0 {
      AfterFollows(d, k - 1);
      NextDayFollows(After(d, k - 1));
      hide Midnight, NextDay, IsDate;
    }
  }

  /** What the dates that are no dates mean: two-digit years, months past the year's end, days past the month's. */
  lemma Overflows(year: int, month: int, day: int)
    ensures 0 <= year <= 99 ==> DateUtc(year, month, day) == DateUtc(1900 + year, month, day)
    ensures year >= 100 ==> DateUtc(year, month + 12, day) == DateUtc(year + 1, month, day)
    ensures DateUtc(year, month, day + 1) == DateUtc(year, month, day) + DAY_MS
  {
    hide DayFromYear, DaysBeforeMonth;
  }

  // ---------------------------------------------------------------- keys

  function Digit(n: int): char
    requires 0 <= n <= 9
  {
    ('0' as int + n) as char
  }

  function Two(n: int): string
    requires 0 <= n <= 99
  {
    [Digit(n / 10), Digit(n % 10)]
  }

  function Four(n: int): string
    requires 0 <= n <= 9999
  {
    Two(n / 100) + Two(n % 100)
  }

  /** A date whose year has four digits. */
  predicate HasKey(d: Date) { IsDate(d) && 0 <= d.year <= 9999 }

  /** `YYYY-MM-DD` */
  function KeyOf(d: Date): string
    requires HasKey(d)
  {
    Four(d.year) + "-" + Two(d.month) + "-" + Two(d.day)
  }

  lemma NumberSnoc(s: string, n: int)
    requires (forall c | c in s :: IsDigit(c)) && 0 <= n <= 9
    ensures (forall c | c in s + [Digit(n)] :: IsDigit(c)) && Number(s + [Digit(n)]) == Number(s) * 10 + n
  {
    assert (s + [Digit(n)])[..|s|] == s;
  }

  lemma TwoReads(n: int)
    requires 0 <= n <= 99
    ensures |Two(n)| == 2 && (forall c | c in Two(n) :: IsDigit(c)) && Number(Two(n)) == n
  {
    NumberSnoc([], n / 10);
    assert [] + [Digit(n / 10)] == [Digit(n / 10)];
    NumberSnoc([Digit(n / 10)], n % 10);
    assert Two(n) == [Digit(n / 10)] + [Digit(n % 10)];
    hide Number;
  }

  lemma FourReads(n: int)
    requires 0 <= n <= 9999
    ensures |Four(n)| == 4 && (forall c | c in Four(n) :: IsDigit(c)) && Number(Four(n)) == n
  {
    var high, low := n / 100, n % 100;
    TwoReads(high);
    NumberSnoc(Two(high), low / 10);
    NumberSnoc(Two(high) + [Digit(low / 10)], low % 10);
    assert Four(n) == Two(high) + [Digit(low / 10)] + [Digit(low % 10)];
    hide Number, Digit;
  }

  /** A date's key is read as its midnight. */
  lemma KeyReads(d: Date)
    requires HasKey(d)
    ensures ParseDayKeyMs(KeyOf(d)) == Some(Midnight(d))
  {
    FourReads(d.year);
    TwoReads(d.month);
    TwoReads(d.day);
    hide Number, Two, Four, ParseDayKeyMs, DateUtc;
    Rollup.DayKey(KeyOf(d), Four(d.year), Two(d.month), Two(d.day));
  }

  /** Only four, two and two digits with hyphens between them are a day at all. */
  lemma KeyShape(key: string)
    ensures ParseDayKeyMs(key).Some? <==>
      |key| == 10 && forall i | 0 <= i < 10 :: if i in {4, 7} then key[i] == '-' else '0' <= key[i] <= '9'
  {
    if |key| == 10 {
      var digits := key[..4] + key[5..7] + key[8..];
      assert forall i | 0 <= i < 10 && i !in {4, 7} :: key[i] == digits[if i < 4 then i else if i < 7 then i - 1 else i - 2];
      assert forall i | 0 <= i < 8 :: digits[i] == key[if i < 4 then i else if i < 6 then i + 1 else i + 2];
      assert IsDayKey(key) <==> key[4] == '-' && key[7] == '-' && forall i | 0 <= i < 8 :: IsDigit(digits[i]);
    }
    hide DateUtc, Number;
  }

  /** The keys of successive days are read one day apart. */
  lemma SuccessiveKeys(d: Date)
    requires HasKey(d) && 100 <= d.year && HasKey(NextDay(d))
    ensures ParseDayKeyMs(KeyOf(d)).Some?
    ensures ParseDayKeyMs(KeyOf(NextDay(d))) == Some(ParseDayKeyMs(KeyOf(d)).value + DAY_MS)
  {
    hide KeyOf, ParseDayKeyMs, Midnight, MonthLength;
    NextDayFollows(d);
    KeyReads(d);
    KeyReads(NextDay(d));
  }

  // ---------------------------------------------------------------- windows in days

  /**
   * On the day k days after `d`, `ms` past midnight, a window of n days reaches back to `d` exactly when
   * k is below n, or is n at midnight; a day still to come is in no window.
   */
  lemma WindowInDays(d: Date, k: nat, ms: int, n: nat)
    requires HasKey(d) && 100 <= d.year && HasKey(After(d, k)) && 0 <= ms < DAY_MS
    ensures WithinWindow(KeyOf(d), Midnight(After(d, k)) + ms, n) <==> k < n || (k == n && ms == 0)
    ensures k > 0 ==> !WithinWindow(KeyOf(After(d, k)), Midnight(d) + ms, n)
  {
    hide KeyOf, ParseDayKeyMs, Midnight, WithinWindow, After, MonthLength;
    AfterFollows(d, k);
    KeyReads(d);
    KeyReads(After(d, k));
    WindowOfKeys(KeyOf(d), KeyOf(After(d, k)), Midnight(d), Midnight(After(d, k)), k, ms, n);
  }

  lemma WindowOfKeys(early: string, late: string, first: int, last: int, k: nat, ms: int, n: nat)
    requires ParseDayKeyMs(early) == Some(first) && ParseDayKeyMs(late) == Some(last)
    requires last == first + k * DAY_MS && 0 <= ms < DAY_MS
    ensures WithinWindow(early, last + ms, n) <==> k < n || (k == n && ms == 0)
    ensures k > 0 ==> !WithinWindow(late, first + ms, n)
  {
    WithinMeans(early, first, last + ms, n);
    WithinMeans(late, last, first + ms, n);
    DaysApart(k, n, ms);
    hide WithinWindow, ParseDayKeyMs;
  }

  lemma WithinMeans(key: string, midnight: int, now: int, n: nat)
    requires ParseDayKeyMs(key) == Some(midnight)
    ensures WithinWindow(key, now, n) <==> midnight <= now && now - midnight <= n * DAY_MS
  {
  }

  lemma DaysApart(k: nat, n: nat, ms: int)
    requires 0 <= ms < DAY_MS
    ensures k * DAY_MS + ms <= n * DAY_MS <==> k < n || (k == n && ms == 0)
    ensures k > 0 ==> k * DAY_MS > ms
  {
  }
}
