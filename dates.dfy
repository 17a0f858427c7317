/** Calendar dates and instants as the services use them: `datetime.strptime(s, "%Y-%m-%d")`,
    `date.isoformat()`, `strftime("%Y%m%d")`, `date + timedelta(days=n)`, comparisons, and the
    midnight `datetime.combine(d, datetime.min.time())`. */
module Dates {
  import opened Wrappers
  import opened Text

  datatype Date = Date(year: int, month: int, day: int)

  /** An instant, to the second: the source's `datetime` values, all taken in UTC. */
  datatype DateTime = DateTime(date: Date, second: int)

  predicate IsLeap(y: int) {
    (y % 4 == 0 && y % 100 != 0) || y % 400 == 0
  }

  function DaysInMonth(y: int, m: int): int {
    if m == 2 then (if IsLeap(y) then 29 else 28)
    else if m == 4 || m == 6 || m == 9 || m == 11 then 30
    else 31
  }

  /** The dates Python's `date` can hold: years 1 to 9999. */
  predicate ValidDate(d: Date) {
    1 <= d.year <= 9999 && 1 <= d.month <= 12 && 1 <= d.day <= DaysInMonth(d.year, d.month)
  }

  predicate ValidDateTime(t: DateTime) {
    ValidDate(t.date) && 0 <= t.second < 86400
  }

  /** `a < b` on dates. */
  predicate Before(a: Date, b: Date) {
    a.year < b.year || (a.year == b.year && (a.month < b.month || (a.month == b.month && a.day < b.day)))
  }

  predicate OnOrBefore(a: Date, b: Date) {
    Before(a, b) || a == b
  }

  /** `a < b` on instants. */
  predicate InstantBefore(a: DateTime, b: DateTime) {
    Before(a.date, b.date) || (a.date == b.date && a.second < b.second)
  }

  /** `datetime.combine(d, datetime.min.time())`. */
  function Midnight(d: Date): DateTime {
    DateTime(d, 0)
  }

  /** `d + timedelta(days=1)`; `None` where Python raises `OverflowError` (after 9999-12-31). */
  function NextDay(d: Date): (r: Option<Date>)
    requires ValidDate(d)
    ensures r.Some? ==> ValidDate(r.value) && Before(d, r.value)
    ensures r.None? <==> d == Date(9999, 12, 31)
  {
    if d.day < DaysInMonth(d.year, d.month) then Some(Date(d.year, d.month, d.day + 1))
    else if d.month < 12 then Some(Date(d.year, d.month + 1, 1))
    else if d.year < 9999 then Some(Date(d.year + 1, 1, 1))
    else None
  }

  /** `d + timedelta(days=n)`. */
  function AddDays(d: Date, n: nat): (r: Option<Date>)
    requires ValidDate(d)
    ensures r.Some? ==> ValidDate(r.value) && OnOrBefore(d, r.value)
    ensures r.Some? && n > 0 ==> Before(d, r.value)
    decreases n
  {
    if n == 0 then Some(d)
    else match NextDay(d)
      case None => None
      case Some(d') => AddDays(d', n - 1)
  }

  /** `d - timedelta(days=1)`; `None` where Python raises `OverflowError` (before 0001-01-01). */
  function PrevDay(d: Date): (r: Option<Date>)
    requires ValidDate(d)
    ensures r.Some? ==> ValidDate(r.value) && Before(r.value, d)
    ensures r.None? <==> d == Date(1, 1, 1)
  {
    if d.day > 1 then Some(Date(d.year, d.month, d.day - 1))
    else if d.month > 1 then Some(Date(d.year, d.month - 1, DaysInMonth(d.year, d.month - 1)))
    else if d.year > 1 then Some(Date(d.year - 1, 12, 31))
    else None
  }

  /** The day after is the very next date: stepping back from it returns `d`, and no valid date
      lies strictly between the two. */
  lemma NextDayExact(d: Date, x: Date)
    requires ValidDate(d) && ValidDate(x) && NextDay(d).Some?
    ensures PrevDay(NextDay(d).value) == Some(d)
    ensures Before(d, x) ==> OnOrBefore(NextDay(d).value, x)
  {
  }

  /** The day before is the very previous date: stepping forward from it returns `d`. */
  lemma PrevDayExact(d: Date)
    requires ValidDate(d) && PrevDay(d).Some?
    ensures NextDay(PrevDay(d).value) == Some(d)
  {
  }

  /** `d - timedelta(days=n)`. */
  function SubDays(d: Date, n: nat): (r: Option<Date>)
    requires ValidDate(d)
    ensures r.Some? ==> ValidDate(r.value) && OnOrBefore(r.value, d)
    ensures r.Some? && n > 0 ==> Before(r.value, d)
    decreases n
  {
    if n == 0 then Some(d)
    else match PrevDay(d)
      case None => None
      case Some(d') => SubDays(d', n - 1)
  }

  /** `d + timedelta(days=n)` for any integer `n`, negative ones included. */
  function ShiftDays(d: Date, n: int): (r: Option<Date>)
    requires ValidDate(d)
    ensures r.Some? ==> ValidDate(r.value)
    ensures r.Some? && n >= 0 ==> OnOrBefore(d, r.value)
    ensures r.Some? && n < 0 ==> Before(r.value, d)
  {
    if n >= 0 then AddDays(d, n) else SubDays(d, -n)
  }

  function IsDigit(c: char): bool {
    '0' <= c <= '9'
  }

  function DigitValue(c: char): int {
    c as int - '0' as int
  }

  /** `%m` of `strptime`: the regular expression `1[0-2]|0[1-9]|[1-9]`, first alternative that
      matches; gives the month and the number of characters it took. */
  function ParseMonth(t: string): (r: Option<(int, nat)>)
    ensures r.Some? ==> 1 <= r.value.0 <= 12 && 1 <= r.value.1 <= 2 && r.value.1 <= |t|
  {
    if |t| >= 2 && t[0] == '1' && '0' <= t[1] <= '2' then Some((10 + DigitValue(t[1]), 2))
    else if |t| >= 2 && t[0] == '0' && '1' <= t[1] <= '9' then Some((DigitValue(t[1]), 2))
    else if |t| >= 1 && '1' <= t[0] <= '9' then Some((DigitValue(t[0]), 1))
    else None
  }

  /** `%d` of `strptime`: the regular expression `3[01]|[12]\d|0[1-9]|[1-9]| [1-9]`. */
  function ParseDay(t: string): (r: Option<(int, nat)>)
    ensures r.Some? ==> 1 <= r.value.0 <= 31 && 1 <= r.value.1 <= 2 && r.value.1 <= |t|
  {
    if |t| >= 2 && t[0] == '3' && '0' <= t[1] <= '1' then Some((30 + DigitValue(t[1]), 2))
    else if |t| >= 2 && '1' <= t[0] <= '2' && IsDigit(t[1]) then Some((10 * DigitValue(t[0]) + DigitValue(t[1]), 2))
    else if |t| >= 2 && t[0] == '0' && '1' <= t[1] <= '9' then Some((DigitValue(t[1]), 2))
    else if |t| >= 1 && '1' <= t[0] <= '9' then Some((DigitValue(t[0]), 1))
    else if |t| >= 2 && t[0] == ' ' && '1' <= t[1] <= '9' then Some((DigitValue(t[1]), 2))
    else None
  }

  /** `datetime.strptime(s, "%Y-%m-%d").date()`: `None` where Python raises `ValueError`
      (no match, unconverted characters left over, or no such day). */
  function ParseIsoDate(s: string): (r: Option<Date>)
    ensures r.Some? ==> ValidDate(r.value)
  {
    if |s| < 5 || !(IsDigit(s[0]) && IsDigit(s[1]) && IsDigit(s[2]) && IsDigit(s[3])) || s[4] != '-' then None
    else
      var year := 1000 * DigitValue(s[0]) + 100 * DigitValue(s[1]) + 10 * DigitValue(s[2]) + DigitValue(s[3]);
      var rest := s[5..];
      match ParseMonth(rest)
      case None => None
      case Some((month, k)) =>
        if k >= |rest| || rest[k] != '-' then None
        else
          var tail := rest[k + 1..];
          match ParseDay(tail)
          case None => None
          case Some((day, k')) =>
            if k' != |tail| then None
            else if ValidDate(Date(year, month, day)) then Some(Date(year, month, day))
            else None
  }

  /** `"%02d" % n` for 0 <= n < 100. */
  function Pad2(n: int): (r: string)
    requires 0 <= n < 100
    ensures |r| == 2
  {
    [DigitChar(n / 10), DigitChar(n % 10)]
  }

  /** `"%04d" % n` for 0 <= n < 10000. */
  function Pad4(n: int): (r: string)
    requires 0 <= n < 10000
    ensures |r| == 4
  {
    [DigitChar(n / 1000), DigitChar(n / 100 % 10), DigitChar(n / 10 % 10), DigitChar(n % 10)]
  }

  /** `d.isoformat()`: `YYYY-MM-DD`. */
  function FormatIso(d: Date): string
    requires ValidDate(d)
  {
    Pad4(d.year) + "-" + Pad2(d.month) + "-" + Pad2(d.day)
  }

  /** `d.strftime("%Y%m%d")`: the year as C's `strftime` prints it, without padding. */
  function FormatCompact(d: Date): string
    requires ValidDate(d)
  {
    NatToString(d.year) + Pad2(d.month) + Pad2(d.day)
  }

  lemma Pad4Digits(n: int)
    requires 0 <= n < 10000
    ensures var p := Pad4(n);
      IsDigit(p[0]) && IsDigit(p[1]) && IsDigit(p[2]) && IsDigit(p[3])
      && 1000 * DigitValue(p[0]) + 100 * DigitValue(p[1]) + 10 * DigitValue(p[2]) + DigitValue(p[3]) == n
  {
    var q1 := n / 10;
    var q2 := q1 / 10;
    var q3 := q2 / 10;
    assert n == 10 * q1 + n % 10;
    assert q1 == 10 * q2 + q1 % 10;
    assert q2 == 10 * q3 + q2 % 10;
    assert q2 == n / 100 && q3 == n / 1000;
  }

  lemma ParseMonthPad2(m: int, t: string)
    requires 1 <= m <= 12
    ensures ParseMonth(Pad2(m) + t) == Some((m, 2))
  {
  }

  lemma ParseDayPad2(d: int)
    requires 1 <= d <= 31
    ensures ParseDay(Pad2(d)) == Some((d, 2))
  {
  }

  /** Every date Python prints with `isoformat` is read back by `strptime("%Y-%m-%d")`. */
  lemma {:induction false} ParseFormatRoundTrip(d: Date)
    requires ValidDate(d)
    ensures ParseIsoDate(FormatIso(d)) == Some(d)
  {
    var s := FormatIso(d);
    Pad4Digits(d.year);
    assert s[..4] == Pad4(d.year);
    var rest := s[5..];
    assert rest == Pad2(d.month) + ("-" + Pad2(d.day));
    ParseMonthPad2(d.month, "-" + Pad2(d.day));
    var tail := rest[3..];
    assert tail == Pad2(d.day);
    ParseDayPad2(d.day);
  }
}
