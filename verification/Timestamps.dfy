/** The UTC timestamps the cache stores as text. The store compares and sorts them
    as text; that is time order, with or without a fraction. */
module Timestamps {
  import opened TextOrder

  datatype Stamp = Stamp(year: nat, month: nat, day: nat, hour: nat, minute: nat, second: nat, micro: nat)

  predicate Leap(year: nat) {
    year % 4 == 0 && (year % 100 != 0 || year % 400 == 0)
  }

  function DaysIn(year: nat, month: nat): nat {
    if month == 2 then (if Leap(year) then 29 else 28)
    else if month == 4 || month == 6 || month == 9 || month == 11 then 30
    else 31
  }

  predicate Valid(s: Stamp) {
    && 1 <= s.year <= 9999 && 1 <= s.month <= 12 && 1 <= s.day <= DaysIn(s.year, s.month)
    && s.hour < 24 && s.minute < 60 && s.second < 60 && s.micro < 1_000_000
  }

  // ---- time ----

  /** Days of the months before this one. */
  function DaysBefore(year: nat, month: nat): nat {
    if month <= 1 then 0 else DaysBefore(year, month - 1) + DaysIn(year, month - 1)
  }

  /** Days of the years before this one. */
  function YearStart(year: nat): nat {
    if year <= 1 then 0 else YearStart(year - 1) + (if Leap(year - 1) then 366 else 365)
  }

  function Days(s: Stamp): nat {
    YearStart(s.year) + DaysBefore(s.year, s.month) + s.day
  }

  function Seconds(s: Stamp): nat {
    ((Days(s) * 24 + s.hour) * 60 + s.minute) * 60 + s.second
  }

  /** Microseconds since the calendar's first day. */
  function Instant(s: Stamp): nat {
    Seconds(s) * 1_000_000 + s.micro
  }

  lemma {:induction false} LaterMonth(year: nat, a: nat, b: nat)
    requires 1 <= a < b
    ensures DaysBefore(year, a) + DaysIn(year, a) <= DaysBefore(year, b)
  {
    if a + 1 < b {
      LaterMonth(year, a, b - 1);
    }
  }

  lemma {:induction false} LaterYear(a: nat, b: nat)
    requires 1 <= a < b
    ensures YearStart(a) + (if Leap(a) then 366 else 365) <= YearStart(b)
  {
    if a + 1 < b {
      LaterYear(a, b - 1);
    }
  }

  lemma YearLength(year: nat)
    ensures DaysBefore(year, 12) + 31 == if Leap(year) then 366 else 365
  {
    hide Leap;
    assert DaysBefore(year, 2) == 31;
    assert DaysBefore(year, 3) == 31 + DaysIn(year, 2);
    assert DaysBefore(year, 5) == DaysBefore(year, 3) + 61;
    assert DaysBefore(year, 7) == DaysBefore(year, 5) + 61;
    assert DaysBefore(year, 9) == DaysBefore(year, 7) + 62;
    assert DaysBefore(year, 11) == DaysBefore(year, 9) + 61;
  }

  lemma {:induction false} DaysInYear(s: Stamp)
    requires Valid(s)
    ensures 1 <= DaysBefore(s.year, s.month) + s.day <= if Leap(s.year) then 366 else 365
  {
    hide Leap, DaysBefore;
    YearLength(s.year);
    if s.month < 12 {
      LaterMonth(s.year, s.month, 12);
    }
  }

  predicate EarlierDay(a: Stamp, b: Stamp) {
    a.year < b.year || (a.year == b.year && (a.month < b.month || (a.month == b.month && a.day < b.day)))
  }

  lemma EarlierDayIsFewerDays(a: Stamp, b: Stamp)
    requires Valid(a) && Valid(b) && EarlierDay(a, b)
    ensures Days(a) < Days(b)
  {
    hide Leap, DaysBefore, YearStart;
    DaysInYear(a);
    DaysInYear(b);
    if a.year < b.year {
      LaterYear(a.year, b.year);
    } else if a.month < b.month {
      LaterMonth(a.year, a.month, b.month);
    }
  }

  predicate EarlierClock(a: Stamp, b: Stamp) {
    a.hour < b.hour || (a.hour == b.hour && (a.minute < b.minute || (a.minute == b.minute &&
    (a.second < b.second || (a.second == b.second && a.micro < b.micro)))))
  }

  predicate SameDay(a: Stamp, b: Stamp) {
    a.year == b.year && a.month == b.month && a.day == b.day
  }

  predicate Earlier(a: Stamp, b: Stamp) {
    EarlierDay(a, b) || (SameDay(a, b) && EarlierClock(a, b))
  }

  lemma EarlierIsSmaller(a: Stamp, b: Stamp)
    requires Valid(a) && Valid(b) && Earlier(a, b)
    ensures Instant(a) < Instant(b)
  {
    hide Days, DaysIn, Leap;
    if EarlierDay(a, b) {
      EarlierDayIsFewerDays(a, b);
    } else {
      assert Days(a) == Days(b) by { SameDays(a, b); }
    }
  }

  lemma SameDays(a: Stamp, b: Stamp)
    requires SameDay(a, b)
    ensures Days(a) == Days(b)
  {
  }

  /** Comparing the fields from the year down is comparing the instants. */
  lemma EarlierIsTime(a: Stamp, b: Stamp)
    requires Valid(a) && Valid(b)
    ensures Earlier(a, b) <==> Instant(a) < Instant(b)
  {
    hide Valid, Instant;
    if Earlier(a, b) {
      EarlierIsSmaller(a, b);
    } else if Earlier(b, a) {
      EarlierIsSmaller(b, a);
    } else {
      assert a == b;
    }
  }

  // ---- text ----

  function Digit(d: nat): char
    requires d < 10
  {
    '0' + d as char
  }

  /** Zero-padded decimal of a fixed width. */
  function Digits(n: nat, width: nat): string
    decreases width
  {
    if width == 0 then "" else Digits(n / 10, width - 1) + [Digit(n % 10)]
  }

  function Field(n: nat, width: nat, rest: string): string {
    Digits(n, width) + rest
  }

  /** `.ffffff` only when there is a fraction, then the UTC offset. */
  function Fraction(micro: nat): string {
    if micro == 0 then "+00:00" else "." + Field(micro, 6, "+00:00")
  }

  function Clock(s: Stamp): string {
    Field(s.hour, 2, ":" + Field(s.minute, 2, ":" + Field(s.second, 2, Fraction(s.micro))))
  }

  /** `datetime.isoformat` of a UTC time. */
  function Iso(s: Stamp): string {
    Field(s.year, 4, "-" + Field(s.month, 2, "-" + Field(s.day, 2, "T" + Clock(s))))
  }

  function Pow10(k: nat): nat {
    if k == 0 then 1 else 10 * Pow10(k - 1)
  }

  lemma {:induction false} DigitsLength(n: nat, width: nat)
    ensures |Digits(n, width)| == width
    decreases width
  {
    if width > 0 {
      DigitsLength(n / 10, width - 1);
    }
  }

  /** Padded numbers of one width compare as numbers do. */
  lemma {:induction false} DigitsOrder(a: nat, b: nat, width: nat)
    requires a < Pow10(width) && b < Pow10(width)
    ensures Before(Digits(a, width), Digits(b, width)) <==> a < b
    ensures Digits(a, width) == Digits(b, width) <==> a == b
    decreases width
  {
    hide Before;
    if width == 0 {
      BeforeSelf("");
    } else {
      var x, y := Digits(a / 10, width - 1), Digits(b / 10, width - 1);
      DigitsLength(a / 10, width - 1);
      DigitsLength(b / 10, width - 1);
      DigitsOrder(a / 10, b / 10, width - 1);
      BeforeAppend(x, y, [Digit(a % 10)], [Digit(b % 10)]);
      BeforeChar(Digit(a % 10), Digit(b % 10));
      assert (x + [Digit(a % 10)])[..width - 1] == x && (y + [Digit(b % 10)])[..width - 1] == y;
      assert (x + [Digit(a % 10)])[width - 1] == Digit(a % 10) && (y + [Digit(b % 10)])[width - 1] == Digit(b % 10);
    }
  }

  lemma FieldOrder(a: nat, b: nat, width: nat, x: string, y: string)
    requires a < Pow10(width) && b < Pow10(width)
    ensures Before(Field(a, width, x), Field(b, width, y)) <==> a < b || (a == b && Before(x, y))
  {
    hide Before, Digits;
    DigitsOrder(a, b, width);
    DigitsLength(a, width);
    DigitsLength(b, width);
    BeforeAppend(Digits(a, width), Digits(b, width), x, y);
  }

  lemma Powers()
    ensures Pow10(2) == 100 && Pow10(4) == 10_000 && Pow10(6) == 1_000_000
  {
    assert Pow10(2) == 100;
    assert Pow10(4) == 10_000;
  }

  /** `+` sorts before `.`, so a whole second sorts before its fractions. */
  lemma FractionOrder(a: nat, b: nat)
    requires a < 1_000_000 && b < 1_000_000
    ensures Before(Fraction(a), Fraction(b)) <==> a < b
  {
    hide Digits, Field;
    Powers();
    FieldOrder(a, b, 6, "+00:00", "+00:00");
    BeforeSelf("+00:00");
    BeforeSame(".", Field(a, 6, "+00:00"), Field(b, 6, "+00:00"));
  }

  lemma ClockOrder(a: Stamp, b: Stamp)
    requires Valid(a) && Valid(b)
    ensures Before(Clock(a), Clock(b)) <==> EarlierClock(a, b)
  {
    hide Before, Field, Fraction, DaysIn, Pow10;
    Powers();
    FractionOrder(a.micro, b.micro);
    var sa, sb := Field(a.second, 2, Fraction(a.micro)), Field(b.second, 2, Fraction(b.micro));
    FieldOrder(a.second, b.second, 2, Fraction(a.micro), Fraction(b.micro));
    BeforeSame(":", sa, sb);
    var ma, mb := Field(a.minute, 2, ":" + sa), Field(b.minute, 2, ":" + sb);
    FieldOrder(a.minute, b.minute, 2, ":" + sa, ":" + sb);
    BeforeSame(":", ma, mb);
    FieldOrder(a.hour, b.hour, 2, ":" + ma, ":" + mb);
  }

  lemma IsoOrder(a: Stamp, b: Stamp)
    requires Valid(a) && Valid(b)
    ensures Before(Iso(a), Iso(b)) <==> Earlier(a, b)
  {
    assert a.day <= 31 && b.day <= 31;
    hide Before, Field, Clock, DaysIn, Pow10, EarlierClock;
    Powers();
    ClockOrder(a, b);
    BeforeSame("T", Clock(a), Clock(b));
    var da, db := Field(a.day, 2, "T" + Clock(a)), Field(b.day, 2, "T" + Clock(b));
    FieldOrder(a.day, b.day, 2, "T" + Clock(a), "T" + Clock(b));
    BeforeSame("-", da, db);
    var ma, mb := Field(a.month, 2, "-" + da), Field(b.month, 2, "-" + db);
    FieldOrder(a.month, b.month, 2, "-" + da, "-" + db);
    BeforeSame("-", ma, mb);
    FieldOrder(a.year, b.year, 4, "-" + ma, "-" + mb);
  }

  /** Text order of stored timestamps is time order. */
  lemma TextOrderIsTimeOrder(a: Stamp, b: Stamp)
    requires Valid(a) && Valid(b)
    ensures Before(Iso(a), Iso(b)) <==> Instant(a) < Instant(b)
  {
    hide Before, Iso, Earlier, Instant, Valid;
    IsoOrder(a, b);
    EarlierIsTime(a, b);
  }

  /** The stored form: zero-padded fields, a fraction of six digits if there is one,
      and the UTC offset. */
  lemma StoredForm(s: Stamp)
    ensures Iso(s) == Digits(s.year, 4) + "-" + Digits(s.month, 2) + "-" + Digits(s.day, 2) + "T"
                      + Digits(s.hour, 2) + ":" + Digits(s.minute, 2) + ":" + Digits(s.second, 2)
                      + (if s.micro == 0 then "" else "." + Digits(s.micro, 6)) + "+00:00"
  {
    hide Digits;
    var last := Fraction(s.micro);
    assert last == (if s.micro == 0 then "" else "." + Digits(s.micro, 6)) + "+00:00";
    hide Fraction;
  }

  /** Padded numbers are their decimal digits. */
  lemma DigitsAre(n: nat, width: nat)
    requires width > 0
    ensures Digits(n, width) == Digits(n / 10, width - 1) + ["0123456789"[n % 10]]
    ensures Digits(7, 2) == "07" && Digits(2025, 4) == "2025"
  {
  }
}
