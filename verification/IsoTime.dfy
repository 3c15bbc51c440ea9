/** UTC timestamps as `datetime.isoformat()` writes them, and the proof that comparing the strings
    compares the instants, although the fraction is left out when it is zero. */
module IsoTime {

  datatype Utc = Utc(year: nat, month: nat, day: nat, hour: nat, minute: nat, second: nat, micro: nat)

  // ---------------------------------------------------------------- calendar

  predicate IsLeap(year: nat) {
    year % 4 == 0 && (year % 100 != 0 || year % 400 == 0)
  }

  function YearLength(year: nat): nat {
    if IsLeap(year) then 366 else 365
  }

  function MonthLength(year: nat, month: nat): nat {
    if month == 2 then (if IsLeap(year) then 29 else 28)
    else if month == 4 || month == 6 || month == 9 || month == 11 then 30
    else 31
  }

  predicate Valid(t: Utc) {
    && 1 <= t.year <= 9999 && 1 <= t.month <= 12 && 1 <= t.day <= MonthLength(t.year, t.month)
    && t.hour < 24 && t.minute < 60 && t.second < 60 && t.micro < 1000000
  }

  function DaysBeforeYear(year: nat): nat {
    if year <= 1 then 0 else DaysBeforeYear(year - 1) + YearLength(year - 1)
  }

  function DaysBeforeMonth(year: nat, month: nat): nat {
    if month <= 1 then 0 else DaysBeforeMonth(year, month - 1) + MonthLength(year, month - 1)
  }

  function DayNumber(t: Utc): nat {
    DaysBeforeYear(t.year) + DaysBeforeMonth(t.year, t.month) + t.day
  }

  /** Microseconds on one time line. */
  function Micros(t: Utc): int {
    (((DayNumber(t) * 24 + t.hour) * 60 + t.minute) * 60 + t.second) * 1000000 + t.micro
  }

  // ---------------------------------------------------------------- text

  /** Python's `<` on strings. */
  predicate Less(a: string, b: string) {
    if b == "" then false
    else if a == "" then true
    else a[0] < b[0] || (a[0] == b[0] && Less(a[1..], b[1..]))
  }

  function Digit(n: nat): char
    requires n < 10
  {
    "0123456789"[n]
  }

  function Power10(width: nat): nat {
    if width == 0 then 1 else 10 * Power10(width - 1)
  }

  /** `n` zero-padded to `width` digits. */
  function Digits(n: nat, width: nat): string {
    if width == 0 then "" else Digits(n / 10, width - 1) + [Digit(n % 10)]
  }

  datatype Field = Field(value: nat, width: nat, separator: string)

  function Fields(t: Utc): seq<Field> {
    [Field(t.year, 4, "-"), Field(t.month, 2, "-"), Field(t.day, 2, "T"),
     Field(t.hour, 2, ":"), Field(t.minute, 2, ":"), Field(t.second, 2, "")]
  }

  function Join(fields: seq<Field>): string {
    if fields == [] then ""
    else Digits(fields[0].value, fields[0].width) + (fields[0].separator + Join(fields[1..]))
  }

  function Fraction(micro: nat): string {
    if micro == 0 then "" else "." + Digits(micro, 6)
  }

  /** `isoformat()` of a UTC datetime. */
  function Iso(t: Utc): string {
    Join(Fields(t)) + (Fraction(t.micro) + "+00:00")
  }

  // ---------------------------------------------------------------- string order

  lemma {:induction false} LessOfConcat(a: string, b: string, x: string, y: string)
    requires |a| == |b|
    ensures Less(a + x, b + y) <==> Less(a, b) || (a == b && Less(x, y))
    decreases |a|
  {
    if a == "" {
      assert a + x == x && b + y == y;
    } else {
      LessOfConcat(a[1..], b[1..], x, y);
      assert (a + x)[1..] == a[1..] + x && (b + y)[1..] == b[1..] + y;
      assert a == [a[0]] + a[1..] && b == [b[0]] + b[1..];
    }
  }

  lemma {:induction false} LessIrreflexive(a: string)
    ensures !Less(a, a)
  {
    if a != "" {
      LessIrreflexive(a[1..]);
    }
  }

  lemma DigitOrder(m: nat, n: nat)
    requires m < 10 && n < 10
    ensures Less([Digit(m)], [Digit(n)]) <==> m < n
    ensures Digit(m) == Digit(n) <==> m == n
  {
    assert [Digit(m)][1..] == "" && [Digit(n)][1..] == "";
  }

  lemma {:induction false} DigitsOrder(m: nat, n: nat, width: nat)
    requires m < Power10(width) && n < Power10(width)
    ensures |Digits(m, width)| == |Digits(n, width)| == width
    ensures Less(Digits(m, width), Digits(n, width)) <==> m < n
    ensures Digits(m, width) == Digits(n, width) <==> m == n
  {
    if width > 0 {
      DigitsOrder(m / 10, n / 10, width - 1);
      DigitOrder(m % 10, n % 10);
      var a, b := Digits(m / 10, width - 1), Digits(n / 10, width - 1);
      LessOfConcat(a, b, [Digit(m % 10)], [Digit(n % 10)]);
      assert (a + [Digit(m % 10)])[..width - 1] == a && (b + [Digit(n % 10)])[..width - 1] == b;
      assert (a + [Digit(m % 10)])[width - 1] == Digit(m % 10) && (b + [Digit(n % 10)])[width - 1] == Digit(n % 10);
    }
  }

  ghost predicate Fit(fields: seq<Field>) {
    forall i :: 0 <= i < |fields| ==> fields[i].value < Power10(fields[i].width)
  }

  /** The same layout: widths and separators agree. */
  ghost predicate SameShape(f: seq<Field>, g: seq<Field>) {
    |f| == |g| && forall i :: 0 <= i < |f| ==> f[i].width == g[i].width && f[i].separator == g[i].separator
  }

  /** Lexicographic order on the field values. */
  predicate Earlier(f: seq<Field>, g: seq<Field>)
    requires |f| == |g|
  {
    f != [] && (f[0].value < g[0].value || (f[0].value == g[0].value && Earlier(f[1..], g[1..])))
  }

  lemma AfterSeparator(a: string, b: string, sep: string, x: string, y: string)
    requires |a| == |b|
    ensures Less(a + (sep + x), b + (sep + y)) <==> Less(a, b) || (a == b && Less(x, y))
  {
    LessOfConcat(a, b, sep + x, sep + y);
    LessOfConcat(sep, sep, x, y);
    LessIrreflexive(sep);
  }

  lemma JoinCons(f: seq<Field>, x: string)
    requires f != []
    ensures Join(f) + x == Digits(f[0].value, f[0].width) + (f[0].separator + (Join(f[1..]) + x))
  {
    var a, sep, rest := Digits(f[0].value, f[0].width), f[0].separator, Join(f[1..]);
    assert (a + (sep + rest)) + x == a + (sep + (rest + x));
  }

  lemma {:induction false} JoinOrder(f: seq<Field>, g: seq<Field>, x: string, y: string)
    requires Fit(f) && Fit(g) && SameShape(f, g)
    ensures Less(Join(f) + x, Join(g) + y) <==> Earlier(f, g) || (f == g && Less(x, y))
    decreases |f|
  {
    if f == [] {
      assert Join(f) + x == x && Join(g) + y == y;
    } else {
      JoinOrder(f[1..], g[1..], x, y);
      JoinCons(f, x);
      JoinCons(g, y);
      DigitsOrder(f[0].value, g[0].value, f[0].width);
      AfterSeparator(Digits(f[0].value, f[0].width), Digits(g[0].value, g[0].width), f[0].separator,
                     Join(f[1..]) + x, Join(g[1..]) + y);
      SameHeadAndTail(f, g);
    }
  }

  lemma SameHeadAndTail(f: seq<Field>, g: seq<Field>)
    requires SameShape(f, g) && f != []
    ensures f == g <==> f[0].value == g[0].value && f[1..] == g[1..]
  {
    assert f == [f[0]] + f[1..] && g == [g[0]] + g[1..];
  }

  lemma FirstCharDecides(a: string, b: string)
    requires a != "" && b != "" && a[0] != b[0]
    ensures Less(a, b) <==> a[0] < b[0]
  {
  }

  lemma FractionOrder(m: nat, n: nat)
    requires m < 1000000 && n < 1000000
    ensures Less(Fraction(m) + "+00:00", Fraction(n) + "+00:00") <==> m < n
  {
    var s, t := Fraction(m) + "+00:00", Fraction(n) + "+00:00";
    if m == n {
      LessIrreflexive(s);
    } else if m == 0 || n == 0 {
      assert s[0] == (if m == 0 then '+' else '.') && t[0] == if n == 0 then '+' else '.';
      FirstCharDecides(s, t);
    } else {
      assert Power10(6) == 1000000;
      DigitsOrder(m, n, 6);
      LessOfConcat(".", ".", Digits(m, 6), Digits(n, 6));
      LessIrreflexive(".");
      LessOfConcat("." + Digits(m, 6), "." + Digits(n, 6), "+00:00", "+00:00");
      LessIrreflexive("+00:00");
    }
  }

  lemma FieldsFit(t: Utc)
    requires Valid(t)
    ensures Fit(Fields(t))
  {
    assert Power10(2) == 100;
    assert Power10(4) == 10000;
  }

  lemma IsoLess(a: Utc, b: Utc)
    requires Valid(a) && Valid(b)
    ensures Less(Iso(a), Iso(b)) <==> Earlier(Fields(a), Fields(b)) || (Fields(a) == Fields(b) && a.micro < b.micro)
  {
    FieldsFit(a);
    FieldsFit(b);
    FractionOrder(a.micro, b.micro);
    JoinOrder(Fields(a), Fields(b), Fraction(a.micro) + "+00:00", Fraction(b.micro) + "+00:00");
  }

  // ---------------------------------------------------------------- calendar order

  lemma {:induction false} YearStarts(y: nat, z: nat)
    requires 1 <= y < z
    ensures DaysBeforeYear(y) + YearLength(y) <= DaysBeforeYear(z)
    decreases z
  {
    if y < z - 1 {
      YearStarts(y, z - 1);
    }
  }

  lemma {:induction false} MonthStarts(year: nat, m: nat, n: nat)
    requires 1 <= m < n
    ensures DaysBeforeMonth(year, m) + MonthLength(year, m) <= DaysBeforeMonth(year, n)
    decreases n
  {
    if m < n - 1 {
      MonthStarts(year, m, n - 1);
    }
  }

  lemma YearHasTwelveMonths(year: nat)
    ensures DaysBeforeMonth(year, 12) + MonthLength(year, 12) == YearLength(year)
  {
    assert DaysBeforeMonth(year, 2) == 31;
    assert DaysBeforeMonth(year, 3) == 31 + MonthLength(year, 2);
    assert DaysBeforeMonth(year, 4) == DaysBeforeMonth(year, 3) + 31;
    assert DaysBeforeMonth(year, 6) == DaysBeforeMonth(year, 4) + 61;
    assert DaysBeforeMonth(year, 8) == DaysBeforeMonth(year, 6) + 61;
    assert DaysBeforeMonth(year, 10) == DaysBeforeMonth(year, 8) + 61;
    assert DaysBeforeMonth(year, 12) == DaysBeforeMonth(year, 10) + 61;
  }

  lemma DayOfYear(year: nat, month: nat, day: nat)
    requires 1 <= month <= 12 && 1 <= day <= MonthLength(year, month)
    ensures 1 <= DaysBeforeMonth(year, month) + day <= YearLength(year)
  {
    YearHasTwelveMonths(year);
    if month < 12 {
      MonthStarts(year, month, 12);
    }
  }

  lemma DayOrder(a: Utc, b: Utc)
    requires Valid(a) && Valid(b)
    requires a.year < b.year || (a.year == b.year && (a.month < b.month || (a.month == b.month && a.day < b.day)))
    ensures DayNumber(a) < DayNumber(b)
  {
    if a.year < b.year {
      YearStarts(a.year, b.year);
      DayOfYear(a.year, a.month, a.day);
      DayOfYear(b.year, b.month, b.day);
    } else if a.month < b.month {
      MonthStarts(a.year, a.month, b.month);
    }
  }

  function SecondOfDay(t: Utc): nat {
    (t.hour * 60 + t.minute) * 60 + t.second
  }

  lemma MicrosSplit(t: Utc)
    requires Valid(t)
    ensures Micros(t) == (DayNumber(t) * 86400 + SecondOfDay(t)) * 1000000 + t.micro
    ensures SecondOfDay(t) < 86400
  {
  }

  ghost predicate FieldLess(a: Utc, b: Utc) {
    if a.year != b.year then a.year < b.year
    else if a.month != b.month then a.month < b.month
    else if a.day != b.day then a.day < b.day
    else if a.hour != b.hour then a.hour < b.hour
    else if a.minute != b.minute then a.minute < b.minute
    else if a.second != b.second then a.second < b.second
    else a.micro < b.micro
  }

  lemma EarlierIsFieldLess(a: Utc, b: Utc)
    ensures Earlier(Fields(a), Fields(b)) || (Fields(a) == Fields(b) && a.micro < b.micro) <==> FieldLess(a, b)
  {
    var f, g := Fields(a), Fields(b);
    assert f[1..][0] == f[1] && g[1..][0] == g[1];
    assert f[1..][1..] == f[2..] && g[1..][1..] == g[2..];
    assert f[2..][1..] == f[3..] && g[2..][1..] == g[3..];
    assert f[3..][1..] == f[4..] && g[3..][1..] == g[4..];
    assert f[4..][1..] == f[5..] && g[4..][1..] == g[5..];
    assert f[5..][1..] == [] && g[5..][1..] == [];
    assert Earlier(f[5..], g[5..]) <==> a.second < b.second;
    assert Earlier(f[4..], g[4..]) <==> a.minute < b.minute || (a.minute == b.minute && Earlier(f[5..], g[5..]));
    assert Earlier(f[3..], g[3..]) <==> a.hour < b.hour || (a.hour == b.hour && Earlier(f[4..], g[4..]));
    assert Earlier(f[2..], g[2..]) <==> a.day < b.day || (a.day == b.day && Earlier(f[3..], g[3..]));
    assert Earlier(f[1..], g[1..]) <==> a.month < b.month || (a.month == b.month && Earlier(f[2..], g[2..]));
    assert f == g <==> a.year == b.year && a.month == b.month && a.day == b.day
                       && a.hour == b.hour && a.minute == b.minute && a.second == b.second by {
      if f == g {
        assert f[0] == g[0] && f[1] == g[1] && f[2] == g[2] && f[3] == g[3] && f[4] == g[4] && f[5] == g[5];
      }
    }
  }

  lemma FieldLessIsEarlier(a: Utc, b: Utc)
    requires Valid(a) && Valid(b) && FieldLess(a, b)
    ensures Micros(a) < Micros(b)
  {
    MicrosSplit(a);
    MicrosSplit(b);
    if a.year == b.year && a.month == b.month && a.day == b.day {
    } else {
      DayOrder(a, b);
    }
  }

  /** Comparing `isoformat()` strings compares instants. */
  lemma IsoOrderIsTimeOrder(a: Utc, b: Utc)
    requires Valid(a) && Valid(b)
    ensures Less(Iso(a), Iso(b)) <==> Micros(a) < Micros(b)
    ensures Iso(a) == Iso(b) <==> Micros(a) == Micros(b)
    ensures Micros(a) == Micros(b) <==> a == b
  {
    IsoLess(a, b);
    IsoLess(b, a);
    EarlierIsFieldLess(a, b);
    EarlierIsFieldLess(b, a);
    if FieldLess(a, b) {
      FieldLessIsEarlier(a, b);
    } else if FieldLess(b, a) {
      FieldLessIsEarlier(b, a);
    } else {
      assert a == b;
    }
    LessIrreflexive(Iso(a));
  }

  // ---------------------------------------------------------------- earlier dates

  lemma MonthDays(year: nat, month: nat)
    requires 1 <= month <= 12
    ensures 28 <= MonthLength(year, month) <= 31
  {
  }

  /** The day before, unless there is none. */
  lemma DayBefore(t: Utc) returns (u: Utc)
    requires Valid(t) && DayNumber(t) > 1
    ensures Valid(u) && DayNumber(u) == DayNumber(t) - 1
    ensures u.hour == t.hour && u.minute == t.minute && u.second == t.second && u.micro == t.micro
  {
    if t.day > 1 {
      u := t.(day := t.day - 1);
    } else if t.month > 1 {
      MonthDays(t.year, t.month - 1);
      u := t.(month := t.month - 1, day := MonthLength(t.year, t.month - 1));
    } else {
      assert DaysBeforeMonth(t.year, 1) == 0 && DaysBeforeYear(1) == 0;
      assert t.year > 1;
      YearHasTwelveMonths(t.year - 1);
      u := t.(year := t.year - 1, month := 12, day := 31);
    }
  }

  lemma {:induction false} DaysBefore(t: Utc, n: nat) returns (u: Utc)
    requires Valid(t) && DayNumber(t) > n
    ensures Valid(u) && Micros(u) == Micros(t) - n * 86_400_000_000
  {
    u := t;
    if n > 0 {
      var v := DaysBefore(t, n - 1);
      MicrosSplit(t);
      MicrosSplit(v);
      SameDays(t, v, n - 1);
      u := DayBefore(v);
      MicrosSplit(u);
    }
  }

  lemma SameDays(t: Utc, v: Utc, n: nat)
    requires Valid(t) && Valid(v) && Micros(v) == Micros(t) - n * 86_400_000_000
    ensures DayNumber(v) == DayNumber(t) - n
  {
    MicrosSplit(t);
    MicrosSplit(v);
  }

  lemma MinuteBefore(t: Utc) returns (u: Utc)
    requires Valid(t) && DayNumber(t) > 1
    ensures Valid(u) && Micros(u) == Micros(t) - 60_000_000 && DayNumber(u) >= DayNumber(t) - 1
  {
    if t.minute > 0 {
      u := t.(minute := t.minute - 1);
    } else if t.hour > 0 {
      u := t.(hour := t.hour - 1, minute := 59);
    } else {
      u := DayBefore(t);
      u := u.(hour := 23, minute := 59);
    }
  }

  lemma FromYearTwo(t: Utc)
    requires Valid(t) && t.year >= 2
    ensures DayNumber(t) >= 366
  {
    YearStarts(1, t.year);
  }
}
