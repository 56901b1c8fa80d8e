/**
 The text form of time stamps. Instants are stored as the ISO text of a UTC date-time, whose
 fraction is absent for a whole second and has six digits otherwise, and the queries compare
 these texts byte by byte. The order of the texts is the order of the instants.
 */
module Timestamps {
  import opened Models

  datatype DateTime = DateTime(year: nat, month: nat, day: nat, hour: nat, minute: nat, second: nat, micro: nat) {
    predicate Valid() {
      && 1 <= year <= 9999
      && 1 <= month <= 12
      && 1 <= day <= DaysInMonth(year, month)
      && hour < 24 && minute < 60 && second < 60 && micro < 1_000_000
    }
  }

  // ----- The calendar

  predicate Leap(year: nat) {
    year % 4 == 0 && (year % 100 != 0 || year % 400 == 0)
  }

  function DaysInMonth(year: nat, month: nat): nat {
    if month == 2 then (if Leap(year) then 29 else 28)
    else if month == 4 || month == 6 || month == 9 || month == 11 then 30
    else 31
  }

  /** Days before the first of January of `year`. */
  function DaysBeforeYear(year: nat): int
    requires year >= 1
  {
    (year - 1) * 365 + (year - 1) / 4 - (year - 1) / 100 + (year - 1) / 400
  }

  function DaysBeforeMonth(year: nat, month: nat): nat {
    if month <= 1 then 0 else DaysBeforeMonth(year, month - 1) + DaysInMonth(year, month - 1)
  }

  function Ordinal(d: DateTime): int
    requires d.Valid()
  {
    DaysBeforeYear(d.year) + DaysBeforeMonth(d.year, d.month) + d.day
  }

  /** Microseconds since the start of 1970. */
  function InstantOf(d: DateTime): Instant
    requires d.Valid()
  {
    (((Ordinal(d) - 719_163) * 24 + d.hour) * 60 + d.minute) * 60_000_000 + d.second * 1_000_000 + d.micro
  }

  /** The origin of instants: midnight of the first day of 1970. */
  lemma Epoch(d: DateTime)
    requires d == DateTime(1970, 1, 1, 0, 0, 0, 0)
    ensures d.Valid() && InstantOf(d) == 0
  {
    assert d.year == 1970 && d.month == 1 && d.day == 1;
    DaysBefore1970(d.year);
    hide DaysBeforeYear;
  }

  lemma DaysBefore1970(year: nat)
    requires year == 1970
    ensures DaysBeforeYear(year) == 719_162
  {
  }

  lemma {:induction false} MonthsFitTheYear(year: nat, month: nat, later: nat)
    requires 1 <= month < later <= 13
    ensures DaysBeforeMonth(year, month) + DaysInMonth(year, month) <= DaysBeforeMonth(year, later)
    decreases later
  {
    if month < later - 1 {
      MonthsFitTheYear(year, month, later - 1);
    }
  }

  lemma YearLength(year: nat)
    ensures DaysBeforeMonth(year, 13) == if Leap(year) then 366 else 365
  {
    assert DaysBeforeMonth(year, 2) == 31;
    assert DaysBeforeMonth(year, 3) == 31 + DaysInMonth(year, 2);
    assert DaysBeforeMonth(year, 4) == 62 + DaysInMonth(year, 2);
    assert DaysBeforeMonth(year, 5) == 92 + DaysInMonth(year, 2);
    assert DaysBeforeMonth(year, 6) == 123 + DaysInMonth(year, 2);
    assert DaysBeforeMonth(year, 7) == 153 + DaysInMonth(year, 2);
    assert DaysBeforeMonth(year, 8) == 184 + DaysInMonth(year, 2);
    assert DaysBeforeMonth(year, 9) == 215 + DaysInMonth(year, 2);
    assert DaysBeforeMonth(year, 10) == 245 + DaysInMonth(year, 2);
    assert DaysBeforeMonth(year, 11) == 276 + DaysInMonth(year, 2);
    assert DaysBeforeMonth(year, 12) == 306 + DaysInMonth(year, 2);
  }

  lemma MonthLengths(year: nat)
    ensures seq(12, i requires 0 <= i < 12 => DaysInMonth(year, i + 1))
            == [31, if Leap(year) then 29 else 28, 31, 30, 31, 30, 31, 31, 30, 31, 30, 31]
    ensures Leap(2000) && !Leap(1900) && Leap(2024) && !Leap(2023)
  {
  }

  lemma NextFour(n: nat)
    requires n >= 1
    ensures n / 4 == (n - 1) / 4 + (if n % 4 == 0 then 1 else 0)
  {
  }

  lemma NextHundred(n: nat)
    requires n >= 1
    ensures n / 100 == (n - 1) / 100 + (if n % 100 == 0 then 1 else 0)
    ensures n % 100 == 0 ==> n % 4 == 0
  {
    var q, m := (n - 1) / 100, (n - 1) % 100;
    assert n == 100 * q + m + 1;
    if m == 99 {
      assert n == 100 * (q + 1);
    }
  }

  lemma NextFourHundred(n: nat)
    requires n >= 1
    ensures n / 400 == (n - 1) / 400 + (if n % 400 == 0 then 1 else 0)
    ensures n % 400 == 0 ==> n % 100 == 0
  {
    var q, m := (n - 1) / 400, (n - 1) % 400;
    assert n == 400 * q + m + 1;
    if m == 399 {
      assert n == 400 * (q + 1);
    }
  }

  /** The Gregorian rule of the year count agrees with the leap years. */
  lemma NextYear(year: nat)
    requires year >= 1
    ensures DaysBeforeYear(year + 1) == DaysBeforeYear(year) + DaysBeforeMonth(year, 13)
  {
    YearLength(year);
    NextFour(year);
    NextHundred(year);
    NextFourHundred(year);
  }

  lemma {:induction false} YearsGrow(year: nat, later: nat)
    requires 1 <= year < later
    ensures DaysBeforeYear(year) + DaysBeforeMonth(year, 13) <= DaysBeforeYear(later)
    decreases later
  {
    NextYear(later - 1);
    if year < later - 1 {
      YearsGrow(year, later - 1);
    }
  }

  lemma EarlierDate(a: DateTime, b: DateTime)
    requires a.Valid() && b.Valid()
    requires a.year < b.year || (a.year == b.year && (a.month < b.month || (a.month == b.month && a.day < b.day)))
    ensures Ordinal(a) < Ordinal(b)
  {
    if a.year < b.year {
      MonthsFitTheYear(a.year, a.month, 13);
      YearsGrow(a.year, b.year);
    } else if a.month < b.month {
      MonthsFitTheYear(a.year, a.month, b.month);
    }
  }

  /** Field by field, most significant first. */
  predicate Before(a: DateTime, b: DateTime) {
    || a.year < b.year
    || (a.year == b.year &&
        (|| a.month < b.month
         || (a.month == b.month &&
             (|| a.day < b.day
              || (a.day == b.day && TimeBefore(a, b))))))
  }

  predicate TimeBefore(a: DateTime, b: DateTime) {
    || a.hour < b.hour
    || (a.hour == b.hour &&
        (|| a.minute < b.minute
         || (a.minute == b.minute &&
             (|| a.second < b.second
              || (a.second == b.second && a.micro < b.micro)))))
  }

  lemma BeforeIsEarlier(a: DateTime, b: DateTime)
    requires a.Valid() && b.Valid() && Before(a, b)
    ensures InstantOf(a) < InstantOf(b)
  {
    if a.year == b.year && a.month == b.month && a.day == b.day {
      assert Ordinal(a) == Ordinal(b);
    } else {
      EarlierDate(a, b);
    }
  }

  lemma FieldOrderIsChronological(a: DateTime, b: DateTime)
    requires a.Valid() && b.Valid()
    ensures Before(a, b) <==> InstantOf(a) < InstantOf(b)
    ensures a == b <==> InstantOf(a) == InstantOf(b)
  {
    if Before(a, b) {
      BeforeIsEarlier(a, b);
    } else if a != b {
      assert Before(b, a);
      BeforeIsEarlier(b, a);
    }
  }

  // ----- Every instant of the years 1 to 9999 is a date-time

  const FIRST := DateTime(1, 1, 1, 0, 0, 0, 0)
  const LAST := DateTime(9999, 12, 31, 23, 59, 59, 999_999)

  /** The instants that the library can represent and print. */
  predicate Printable(t: Instant) {
    InstantOf(FIRST) <= t <= InstantOf(LAST)
  }

  lemma {:induction false} YearOf(ordinal: int, from: nat) returns (year: nat)
    requires 1 <= from <= 9999 && DaysBeforeYear(from) < ordinal <= DaysBeforeYear(10_000)
    ensures 1 <= year <= 9999 && DaysBeforeYear(year) < ordinal <= DaysBeforeYear(year + 1)
    decreases 9999 - from
  {
    if ordinal <= DaysBeforeYear(from + 1) {
      year := from;
    } else {
      year := YearOf(ordinal, from + 1);
    }
  }

  lemma {:induction false} MonthOf(year: nat, day: int, from: nat) returns (month: nat)
    requires 1 <= from <= 12 && DaysBeforeMonth(year, from) < day <= DaysBeforeMonth(year, 13)
    ensures 1 <= month <= 12
    ensures DaysBeforeMonth(year, month) < day <= DaysBeforeMonth(year, month) + DaysInMonth(year, month)
    decreases 12 - from
  {
    if from == 12 || day <= DaysBeforeMonth(year, from + 1) {
      month := from;
    } else {
      month := MonthOf(year, day, from + 1);
    }
  }

  lemma DateOf(ordinal: int) returns (date: DateTime)
    requires 1 <= ordinal <= DaysBeforeYear(10_000)
    ensures date.Valid() && Ordinal(date) == ordinal
  {
    var year := YearOf(ordinal, 1);
    NextYear(year);
    var month := MonthOf(year, ordinal - DaysBeforeYear(year), 1);
    date := DateTime(year, month, ordinal - DaysBeforeYear(year) - DaysBeforeMonth(year, month), 0, 0, 0, 0);
  }

  function TimeOfDay(d: DateTime): int {
    (d.hour * 60 + d.minute) * 60_000_000 + d.second * 1_000_000 + d.micro
  }

  lemma InstantSplits(d: DateTime)
    requires d.Valid()
    ensures InstantOf(d) == (Ordinal(d) - 719_163) * 86_400_000_000 + TimeOfDay(d)
    ensures 0 <= TimeOfDay(d) < 86_400_000_000
  {
    hide Ordinal;
  }

  lemma WithTime(date: DateTime, micros: int) returns (d: DateTime)
    requires date.Valid() && 0 <= micros < 86_400_000_000
    ensures d.Valid() && Ordinal(d) == Ordinal(date) && TimeOfDay(d) == micros
  {
    var minutes, rest := micros / 60_000_000, micros % 60_000_000;
    d := date.(hour := minutes / 60, minute := minutes % 60, second := rest / 1_000_000, micro := rest % 1_000_000);
  }

  lemma LastDayOfYear(d: DateTime)
    requires d.Valid() && d.month == 12 && d.day == 31
    ensures Ordinal(d) == DaysBeforeYear(d.year + 1)
  {
    var december := d.month;
    assert DaysBeforeMonth(d.year, december + 1) == DaysBeforeMonth(d.year, december) + 31;
    NextYear(d.year);
  }

  lemma OrdinalBetween(t: Instant, a: DateTime, b: DateTime)
    requires a.Valid() && b.Valid() && InstantOf(a) <= t <= InstantOf(b)
    ensures Ordinal(a) <= t / 86_400_000_000 + 719_163 <= Ordinal(b)
  {
    hide InstantOf, Ordinal, TimeOfDay;
    InstantSplits(a);
    InstantSplits(b);
  }

  lemma FirstDay()
    ensures Ordinal(FIRST) == 1
  {
  }

  lemma EveryInstantIsADateTime(t: Instant) returns (d: DateTime)
    requires Printable(t)
    ensures d.Valid() && InstantOf(d) == t
  {
    hide InstantOf, Ordinal, TimeOfDay, DaysBeforeYear;
    OrdinalBetween(t, FIRST, LAST);
    FirstDay();
    LastDayOfYear(LAST);
    var date := DateOf(t / 86_400_000_000 + 719_163);
    d := WithTime(date, t % 86_400_000_000);
    InstantSplits(d);
  }

  /** The date-times are exactly the printable instants. */
  lemma DateTimesAreInstants(t: Instant)
    ensures Printable(t) <==> exists d: DateTime :: d.Valid() && InstantOf(d) == t
  {
    if Printable(t) {
      var d := EveryInstantIsADateTime(t);
    }
    forall d: DateTime | d.Valid() && InstantOf(d) == t ensures Printable(t) {
      FieldOrderIsChronological(d, FIRST);
      FieldOrderIsChronological(d, LAST);
    }
  }

  ghost function DateTimeOf(t: Instant): (d: DateTime)
    requires Printable(t)
    ensures d.Valid() && InstantOf(d) == t
  {
    DateTimesAreInstants(t);
    var d: DateTime :| d.Valid() && InstantOf(d) == t;
    d
  }

  // ----- The text

  function DigitChar(d: nat): char
    requires d < 10
  {
    '0' + d as char
  }

  /** Zero-padded decimal digits. */
  function Digits(n: nat, width: nat): (s: string)
    ensures |s| == width
  {
    if width == 0 then "" else Digits(n / 10, width - 1) + [DigitChar(n % 10)]
  }

  function Tail(micro: nat): string {
    if micro == 0 then "+00:00" else ['.'] + Digits(micro, 6) + "+00:00"
  }

  function FromSecond(d: DateTime): string { [':'] + Digits(d.second, 2) + Tail(d.micro) }
  function FromMinute(d: DateTime): string { [':'] + Digits(d.minute, 2) + FromSecond(d) }
  function FromHour(d: DateTime): string { ['T'] + Digits(d.hour, 2) + FromMinute(d) }
  function FromDay(d: DateTime): string { ['-'] + Digits(d.day, 2) + FromHour(d) }
  function FromMonth(d: DateTime): string { ['-'] + Digits(d.month, 2) + FromDay(d) }

  /** `isoformat` of a UTC date-time. */
  function Iso(d: DateTime): string { Digits(d.year, 4) + FromMonth(d) }

  /** Where each field of the text stands; the fraction is absent for a whole second and has six digits otherwise. */
  lemma IsoLayout(d: DateTime)
    ensures var s := Iso(d);
            && |s| == (if d.micro == 0 then 25 else 32)
            && s[..4] == Digits(d.year, 4) && s[4] == '-' && s[5..7] == Digits(d.month, 2) && s[7] == '-'
            && s[8..10] == Digits(d.day, 2) && s[10] == 'T' && s[11..13] == Digits(d.hour, 2) && s[13] == ':'
            && s[14..16] == Digits(d.minute, 2) && s[16] == ':' && s[17..19] == Digits(d.second, 2)
            && s[19..] == if d.micro == 0 then "+00:00" else "." + Digits(d.micro, 6) + "+00:00"
  {
    hide Digits;
    assert ['.'] == ".";
  }

  /** Byte order of texts. */
  predicate TextLess(a: string, b: string) {
    |b| > 0 && (|a| == 0 || a[0] < b[0] || (a[0] == b[0] && TextLess(a[1..], b[1..])))
  }

  lemma {:induction false} TextAfterPrefix(p: string, q: string, s: string, t: string)
    requires |p| == |q|
    ensures TextLess(p + s, q + t) <==> TextLess(p, q) || (p == q && TextLess(s, t))
  {
    if |p| == 0 {
      assert p + s == s && q + t == t;
    } else {
      assert (p + s)[1..] == p[1..] + s && (q + t)[1..] == q[1..] + t;
      assert p == q <==> p[0] == q[0] && p[1..] == q[1..];
      TextAfterPrefix(p[1..], q[1..], s, t);
    }
  }

  lemma CharOrder(m: nat, n: nat)
    requires m < 10 && n < 10
    ensures TextLess([DigitChar(m)], [DigitChar(n)]) <==> m < n
    ensures DigitChar(m) == DigitChar(n) <==> m == n
  {
  }

  function Pow10(w: nat): nat { if w == 0 then 1 else 10 * Pow10(w - 1) }

  /** Padded numbers compare as texts the way they compare as numbers. */
  lemma {:induction false} DigitsOrder(m: nat, n: nat, w: nat)
    requires m < Pow10(w) && n < Pow10(w)
    ensures TextLess(Digits(m, w), Digits(n, w)) <==> m < n
    ensures Digits(m, w) == Digits(n, w) <==> m == n
  {
    if w > 0 {
      DigitsOrder(m / 10, n / 10, w - 1);
      CharOrder(m % 10, n % 10);
      TextAfterPrefix(Digits(m / 10, w - 1), Digits(n / 10, w - 1), [DigitChar(m % 10)], [DigitChar(n % 10)]);
      assert Digits(m, w)[..w - 1] == Digits(m / 10, w - 1) && Digits(n, w)[..w - 1] == Digits(n / 10, w - 1);
      assert Digits(m, w)[w - 1] == DigitChar(m % 10) && Digits(n, w)[w - 1] == DigitChar(n % 10);
    }
  }

  lemma FieldOrder(sep: string, m: nat, n: nat, w: nat, s: string, t: string)
    requires m < Pow10(w) && n < Pow10(w)
    ensures TextLess(sep + Digits(m, w) + s, sep + Digits(n, w) + t) <==> m < n || (m == n && TextLess(s, t))
  {
    DigitsOrder(m, n, w);
    TextAfterPrefix(sep, sep, Digits(m, w), Digits(n, w));
    NotLessThanItself(sep);
    TextAfterPrefix(sep + Digits(m, w), sep + Digits(n, w), s, t);
    assert sep + Digits(m, w) == sep + Digits(n, w) <==> Digits(m, w) == Digits(n, w) by {
      assert (sep + Digits(m, w))[|sep|..] == Digits(m, w) && (sep + Digits(n, w))[|sep|..] == Digits(n, w);
    }
  }

  lemma {:induction false} NotLessThanItself(s: string)
    ensures !TextLess(s, s)
  {
    if |s| > 0 {
      NotLessThanItself(s[1..]);
    }
  }

  /** An absent fraction sorts before every present one because '+' sorts before '.'. */
  lemma TailOrder(m: nat, n: nat)
    requires m < 1_000_000 && n < 1_000_000
    ensures TextLess(Tail(m), Tail(n)) <==> m < n
  {
    PowersOfTen();
    if m > 0 && n > 0 {
      FieldOrder(['.'], m, n, 6, "+00:00", "+00:00");
    }
    NotLessThanItself("+00:00");
  }

  lemma PowersOfTen()
    ensures Pow10(2) == 100 && Pow10(4) == 10_000 && Pow10(6) == 1_000_000
  {
    assert Pow10(3) == 10 * Pow10(2) && Pow10(5) == 10 * Pow10(4);
  }

  lemma TimeTextOrder(a: DateTime, b: DateTime)
    requires a.Valid() && b.Valid()
    ensures TextLess(FromHour(a), FromHour(b)) <==> TimeBefore(a, b)
  {
    PowersOfTen();
    TailOrder(a.micro, b.micro);
    FieldOrder([':'], a.second, b.second, 2, Tail(a.micro), Tail(b.micro));
    FieldOrder([':'], a.minute, b.minute, 2, FromSecond(a), FromSecond(b));
    FieldOrder(['T'], a.hour, b.hour, 2, FromMinute(a), FromMinute(b));
  }

  /** The order of the texts is the order of the instants, for all years with four digits. */
  lemma TextOrderIsTimeOrder(a: DateTime, b: DateTime)
    requires a.Valid() && b.Valid()
    ensures TextLess(Iso(a), Iso(b)) <==> InstantOf(a) < InstantOf(b)
  {
    PowersOfTen();
    TimeTextOrder(a, b);
    FieldOrder(['-'], a.day, b.day, 2, FromHour(a), FromHour(b));
    FieldOrder(['-'], a.month, b.month, 2, FromDay(a), FromDay(b));
    FieldOrder("", a.year, b.year, 4, FromMonth(a), FromMonth(b));
    assert "" + Digits(a.year, 4) == Digits(a.year, 4) && "" + Digits(b.year, 4) == Digits(b.year, 4);
    FieldOrderIsChronological(a, b);
  }

  // ----- Reading the text back

  /** The number that a run of digits denotes. */
  function NumberOf(s: string): Option<nat> {
    if |s| == 0 then Some(0)
    else
      var rest, last := NumberOf(s[..|s| - 1]), s[|s| - 1];
      if rest.Some? && '0' <= last <= '9' then Some(10 * rest.value + (last as int - '0' as int)) else None
  }

  lemma {:induction false} NumberOfDigits(n: nat, w: nat)
    requires n < Pow10(w)
    ensures NumberOf(Digits(n, w)) == Some(n)
  {
    if w > 0 {
      NumberOfDigits(n / 10, w - 1);
      assert Digits(n, w)[..w - 1] == Digits(n / 10, w - 1);
    }
  }

  datatype Field = Field(value: nat, rest: string)

  /** A separator and a number of fixed width at the front of a text. */
  function TakeField(s: string, sep: string, width: nat): Option<Field> {
    if |s| < |sep| + width || s[..|sep|] != sep then None
    else
      match NumberOf(s[|sep|..|sep| + width])
      case None => None
      case Some(n) => Some(Field(n, s[|sep| + width..]))
  }

  lemma TakePrinted(sep: string, n: nat, w: nat, rest: string)
    requires n < Pow10(w)
    ensures TakeField(sep + Digits(n, w) + rest, sep, w) == Some(Field(n, rest))
  {
    var s := sep + Digits(n, w) + rest;
    NumberOfDigits(n, w);
    assert s[..|sep|] == sep && s[|sep|..|sep| + w] == Digits(n, w) && s[|sep| + w..] == rest;
  }

  function ParseTail(s: string): Option<nat> {
    if s == "+00:00" then Some(0)
    else
      match TakeField(s, ".", 6)
      case None => None
      case Some(f) => if f.rest == "+00:00" then Some(f.value) else None
  }

  function ParseTime(s: string): Option<(nat, nat, nat, nat)> {
    match TakeField(s, "T", 2) case None => None case Some(h) =>
    match TakeField(h.rest, ":", 2) case None => None case Some(m) =>
    match TakeField(m.rest, ":", 2) case None => None case Some(sec) =>
    match ParseTail(sec.rest) case None => None case Some(micro) =>
    Some((h.value, m.value, sec.value, micro))
  }

  /** `fromisoformat`, restricted to the two shapes that are ever stored. */
  function Parse(s: string): Option<DateTime> {
    match TakeField(s, "", 4) case None => None case Some(y) =>
    match TakeField(y.rest, "-", 2) case None => None case Some(mo) =>
    match TakeField(mo.rest, "-", 2) case None => None case Some(d) =>
    match ParseTime(d.rest) case None => None case Some(t) =>
    var parsed := DateTime(y.value, mo.value, d.value, t.0, t.1, t.2, t.3);
    if parsed.Valid() then Some(parsed) else None
  }

  lemma ParsePrintedTime(d: DateTime)
    requires d.Valid()
    ensures ParseTime(FromHour(d)) == Some((d.hour, d.minute, d.second, d.micro))
  {
    PowersOfTen();
    TakePrinted("T", d.hour, 2, FromMinute(d));
    TakePrinted(":", d.minute, 2, FromSecond(d));
    TakePrinted(":", d.second, 2, Tail(d.micro));
    TakePrinted(".", d.micro, 6, "+00:00");
    if d.micro > 0 {
      assert Tail(d.micro)[0] == '.';
    }
  }

  /** Parsing the printed text returns the instant. */
  lemma ParseAfterPrint(d: DateTime)
    requires d.Valid()
    ensures Parse(Iso(d)) == Some(d)
  {
    PowersOfTen();
    ParsePrintedTime(d);
    TakePrinted("", d.year, 4, FromMonth(d));
    assert "" + Digits(d.year, 4) + FromMonth(d) == Iso(d);
    TakePrinted("-", d.month, 2, FromDay(d));
    TakePrinted("-", d.day, 2, FromHour(d));
  }

  // ----- What the queries compare

  /** The eligibility clause as the database evaluates it. */
  predicate EligibleText(status: Status, nextAttemptAt: Option<string>, now: string) {
    status.Waiting() && (nextAttemptAt.None? || !TextLess(now, nextAttemptAt.value))
  }

  /** What the columns hold for an instant. */
  ghost function TextOf(t: Instant): string
    requires Printable(t)
  {
    Iso(DateTimeOf(t))
  }

  /** The textual clause decides exactly what `Eligible` decides on instants. */
  lemma EligibilityIsExact(row: Row, now: Instant)
    requires Printable(now) && (row.nextAttemptAt.Some? ==> Printable(row.nextAttemptAt.value))
    ensures var next := if row.nextAttemptAt.Some? then Some(TextOf(row.nextAttemptAt.value)) else None;
            EligibleText(row.status, next, TextOf(now)) <==> Eligible(row, now)
  {
    if row.nextAttemptAt.Some? {
      TextOrderIsTimeOrder(DateTimeOf(now), DateTimeOf(row.nextAttemptAt.value));
    }
  }

  /** `ORDER BY created_at` and `min(created_at)` on the texts pick exactly the earliest instants. */
  lemma TextMinimumIsEarliest(created: map<RequestId, Instant>, id: RequestId)
    requires id in created && forall i :: i in created ==> Printable(created[i])
    ensures (forall i :: i in created ==> !TextLess(TextOf(created[i]), TextOf(created[id])))
            <==> (forall i :: i in created ==> created[id] <= created[i])
  {
    forall i | i in created
      ensures TextLess(TextOf(created[i]), TextOf(created[id])) <==> created[i] < created[id]
    {
      TextOrderIsTimeOrder(DateTimeOf(created[i]), DateTimeOf(created[id]));
    }
  }
}
