/**
 * The proleptic Gregorian calendar behind JavaScript's UTC dates, and the
 * strings `toISOString` writes.  A day is counted from 0000-01-01; years
 * beyond 9999 are not part of this model.
 */
module Calendar {

  // ---------------------------------------------------------------- civil dates

  predicate IsLeap(y: nat) {
    y % 4 == 0 && (y % 100 != 0 || y % 400 == 0)
  }

  function YearLength(y: nat): nat {
    if IsLeap(y) then 366 else 365
  }

  function MonthLength(y: nat, m: nat): nat {
    if m == 1 then (if IsLeap(y) then 29 else 28)
    else if m == 3 || m == 5 || m == 8 || m == 10 then 30
    else 31
  }

  /** A date; months and days count from 0. */
  datatype Date = Date(year: nat, month: nat, day: nat)

  function MonthOf(y: nat, m: nat, dayOfYear: nat): Date
    decreases dayOfYear
  {
    if m < 11 && dayOfYear >= MonthLength(y, m) then MonthOf(y, m + 1, dayOfYear - MonthLength(y, m))
    else Date(y, m, dayOfYear)
  }

  function YearOf(y: nat, days: nat): Date
    decreases days
  {
    if days >= YearLength(y) then YearOf(y + 1, days - YearLength(y)) else MonthOf(y, 0, days)
  }

  function DateOf(day: nat): Date {
    YearOf(0, day)
  }

  predicate Before(a: Date, b: Date) {
    a.year < b.year || (a.year == b.year && (a.month < b.month || (a.month == b.month && a.day < b.day)))
  }

  lemma {:induction false} MonthOfBounds(y: nat, m: nat, d: nat)
    requires m <= 11
    requires d < (if m == 0 then YearLength(y) else DaysFrom(y, m))
    ensures var r := MonthOf(y, m, d); r.year == y && m <= r.month <= 11 && r.day < MonthLength(y, r.month)
    decreases d
  {
    if m < 11 && d >= MonthLength(y, m) { MonthOfBounds(y, m + 1, d - MonthLength(y, m)); }
  }

  /** Days from the first of month `m` to the end of the year. */
  function DaysFrom(y: nat, m: nat): nat
    requires m <= 11
    ensures m == 0 ==> DaysFrom(y, m) == YearLength(y)
    decreases 11 - m
  {
    MonthLength(y, m) + if m == 11 then 0 else DaysFrom(y, m + 1)
  }

  lemma {:induction false} MonthOfOrdered(y: nat, m: nat, c: nat, d: nat)
    requires m <= 11 && c < d
    ensures Before(MonthOf(y, m, c), MonthOf(y, m, d))
    decreases d
  {
    MonthOfKeeps(y, m, d);
    if m < 11 && c >= MonthLength(y, m) {
      MonthOfOrdered(y, m + 1, c - MonthLength(y, m), d - MonthLength(y, m));
    } else if m < 11 && d >= MonthLength(y, m) {
      MonthOfKeeps(y, m + 1, d - MonthLength(y, m));
    }
  }

  lemma {:induction false} MonthOfKeeps(y: nat, m: nat, d: nat)
    requires m <= 11
    ensures MonthOf(y, m, d).year == y && m <= MonthOf(y, m, d).month <= 11
    decreases d
  {
    if m < 11 && d >= MonthLength(y, m) { MonthOfKeeps(y, m + 1, d - MonthLength(y, m)); }
  }

  lemma {:induction false} YearOfKeeps(y: nat, d: nat)
    ensures YearOf(y, d).year >= y
    decreases d
  {
    if d >= YearLength(y) { YearOfKeeps(y + 1, d - YearLength(y)); } else { MonthOfKeeps(y, 0, d); }
  }

  lemma {:induction false} YearOfOrdered(y: nat, c: nat, d: nat)
    requires c < d
    ensures Before(YearOf(y, c), YearOf(y, d))
    decreases d
  {
    if c >= YearLength(y) {
      YearOfOrdered(y + 1, c - YearLength(y), d - YearLength(y));
    } else {
      MonthOfKeeps(y, 0, c);
      if d >= YearLength(y) { YearOfKeeps(y + 1, d - YearLength(y)); } else { MonthOfOrdered(y, 0, c, d); }
    }
  }

  lemma {:induction false} YearOfBounds(y: nat, d: nat)
    ensures var r := YearOf(y, d); r.month <= 11 && r.day < MonthLength(r.year, r.month)
    decreases d
  {
    if d >= YearLength(y) { YearOfBounds(y + 1, d - YearLength(y)); } else { MonthOfBounds(y, 0, d); }
  }

  /** Going back `day` days from a date reaches the first of its month, in the same month. */
  lemma {:induction false} MonthOfFirst(y: nat, m: nat, d: nat, k: nat)
    requires m <= 11 && k <= MonthOf(y, m, d).day <= d
    ensures var r := MonthOf(y, m, d); MonthOf(y, m, d - k) == Date(r.year, r.month, r.day - k)
    decreases d
  {
    if m < 11 && d >= MonthLength(y, m) {
      MonthOfDay(y, m + 1, d - MonthLength(y, m));
      MonthOfFirst(y, m + 1, d - MonthLength(y, m), k);
    }
  }

  lemma {:induction false} MonthOfDay(y: nat, m: nat, d: nat)
    ensures MonthOf(y, m, d).day <= d
    decreases d
  {
    if m < 11 && d >= MonthLength(y, m) { MonthOfDay(y, m + 1, d - MonthLength(y, m)); }
  }

  lemma {:induction false} YearOfDay(y: nat, d: nat)
    ensures YearOf(y, d).day <= d
    decreases d
  {
    if d >= YearLength(y) { YearOfDay(y + 1, d - YearLength(y)); } else { MonthOfDay(y, 0, d); }
  }

  lemma {:induction false} YearOfFirst(y: nat, d: nat, k: nat)
    requires k <= YearOf(y, d).day
    ensures YearOf(y, d).day <= d
    ensures var r := YearOf(y, d); YearOf(y, d - k) == Date(r.year, r.month, r.day - k)
    decreases d
  {
    YearOfDay(y, d);
    if d >= YearLength(y) {
      YearOfDay(y + 1, d - YearLength(y));
      YearOfFirst(y + 1, d - YearLength(y), k);
    } else {
      MonthOfDay(y, 0, d);
      MonthOfFirst(y, 0, d, k);
    }
  }

  // ---------------------------------------------------------------- bucket starts

  /** `d.setUTCDate(1)` */
  function MonthStart(day: nat): (r: nat) {
    YearOfDay(0, day);
    day - DateOf(day).day
  }

  /** `getUTCDay`: Sunday is 0. */
  function Weekday(day: nat): nat {
    (day + 6) % 7
  }

  /** `d.setUTCDate(d.getUTCDate() - ((d.getUTCDay() + 6) % 7))`; may fall before 0000-01-01. */
  function WeekStart(day: nat): int {
    day - (Weekday(day) + 6) % 7
  }

  /** The month bucket starts on the first of the day's own month. */
  lemma {:induction false} MonthStartIsFirst(day: nat)
    ensures var s := MonthStart(day); s <= day && DateOf(s) == DateOf(day).(day := 0)
    ensures MonthStart(MonthStart(day)) == MonthStart(day)
  {
    YearOfFirst(0, day, DateOf(day).day);
  }

  /** The week bucket starts on the Monday at most six days earlier. */
  lemma {:induction false} WeekStartIsMonday(day: nat)
    ensures var s := WeekStart(day); day - 6 <= s <= day && (s >= 0 ==> Weekday(s) == 1 && WeekStart(s) == s)
  {
    var r := (Weekday(day) + 6) % 7;
    assert (day + 5) % 7 == r;
    assert day == WeekStart(day) + r;
  }

  // ---------------------------------------------------------------- text

  function Digit(v: nat): char
    requires v < 10
  {
    '0' + v as char
  }

  /** The last `width` decimal digits of `v`. */
  function Pad(v: nat, width: nat): (s: string)
    ensures |s| == width
  {
    if width == 0 then "" else Pad(v / 10, width - 1) + [Digit(v % 10)]
  }

  function DateText(d: Date): (s: string)
    ensures |s| == 10
  {
    Pad(d.year, 4) + "-" + Pad(d.month + 1, 2) + "-" + Pad(d.day + 1, 2)
  }

  /** `toISOString().slice(0, 10)` */
  function DayKey(day: nat): (s: string)
    ensures |s| == 10
  {
    DateText(DateOf(day))
  }

  function TimeText(ms: nat): (s: string)
    ensures |s| == 14
  {
    "T" + Pad(ms / 3_600_000, 2) + ":" + Pad(ms / 60_000 % 60, 2) + ":" + Pad(ms / 1000 % 60, 2) + "." + Pad(ms % 1000, 3) + "Z"
  }

  /** The day of an instant given in milliseconds since 1970, which is day 719528. */
  function DayOfInstant(ms: int): int {
    ms / 86_400_000 + 719_528
  }

  /** `toISOString` of an instant not before year 0. */
  function Iso(ms: int): (s: string)
    requires DayOfInstant(ms) >= 0
    ensures |s| == 24
  {
    DayKey(DayOfInstant(ms)) + TimeText(ms % 86_400_000)
  }

  // ---------------------------------------------------------------- the calendar by its rules

  /** Leap days in the years before `y`: every fourth year, but of the centuries only every fourth. */
  function LeapDaysBefore(y: nat): int {
    (y + 3) / 4 - (y + 99) / 100 + (y + 399) / 400
  }

  /** Days before a month in a year without a leap day. */
  function DaysBeforeMonth(m: nat): int {
    match m
    case 0 => 0
    case 1 => 31
    case 2 => 59
    case 3 => 90
    case 4 => 120
    case 5 => 151
    case 6 => 181
    case 7 => 212
    case 8 => 243
    case 9 => 273
    case 10 => 304
    case _ => 334
  }

  /** The number of a day, by the Gregorian rules. */
  function DayNumber(d: Date): int {
    var leap := if d.month >= 2 then LeapDaysBefore(d.year + 1) - LeapDaysBefore(d.year) else 0;
    365 * d.year + LeapDaysBefore(d.year) + DaysBeforeMonth(d.month) + leap + d.day
  }

  lemma {:induction false} EveryFourth(y: nat)
    ensures (y + 4) / 4 - (y + 3) / 4 == if y % 4 == 0 then 1 else 0
  {}

  lemma {:induction false} EveryHundredth(y: nat)
    ensures (y + 100) / 100 - (y + 99) / 100 == if y % 100 == 0 then 1 else 0
  {}

  lemma {:induction false} EveryFourHundredth(y: nat)
    ensures (y + 400) / 400 - (y + 399) / 400 == if y % 400 == 0 then 1 else 0
  {}

  lemma {:induction false} CenturiesAreFourths(y: nat)
    ensures y % 100 == 0 ==> y % 4 == 0
    ensures y % 400 == 0 ==> y % 100 == 0
  {
    if y % 100 == 0 { FourTimes(25 * (y / 100), y); }
    if y % 400 == 0 { HundredTimes(4 * (y / 400), y); }
  }

  lemma {:induction false} FourTimes(k: nat, y: nat)
    requires y == 4 * k
    ensures y % 4 == 0
  {}

  lemma {:induction false} HundredTimes(k: nat, y: nat)
    requires y == 100 * k
    ensures y % 100 == 0
  {}

  lemma {:induction false} LeapYear(y: nat)
    ensures LeapDaysBefore(y + 1) - LeapDaysBefore(y) == if IsLeap(y) then 1 else 0
  {
    EveryFourth(y);
    EveryHundredth(y);
    EveryFourHundredth(y);
    CenturiesAreFourths(y);
  }

  lemma {:induction false} NextMonth(y: nat, m: nat)
    requires m < 11
    ensures DayNumber(Date(y, m + 1, 0)) == DayNumber(Date(y, m, 0)) + MonthLength(y, m)
  {
    LeapYear(y);
  }

  lemma {:induction false} NextYear(y: nat)
    ensures DayNumber(Date(y + 1, 0, 0)) == DayNumber(Date(y, 0, 0)) + YearLength(y)
  {
    LeapYear(y);
  }

  lemma {:induction false} MonthOfNumber(y: nat, m: nat, d: nat)
    requires m <= 11
    ensures DayNumber(MonthOf(y, m, d)) == DayNumber(Date(y, m, 0)) + d
    decreases d
  {
    if m < 11 && d >= MonthLength(y, m) {
      NextMonth(y, m);
      MonthOfNumber(y, m + 1, d - MonthLength(y, m));
    }
  }

  lemma {:induction false} YearOfNumber(y: nat, d: nat)
    ensures DayNumber(YearOf(y, d)) == DayNumber(Date(y, 0, 0)) + d
    decreases d
  {
    if d >= YearLength(y) {
      NextYear(y);
      YearOfNumber(y + 1, d - YearLength(y));
    } else {
      MonthOfNumber(y, 0, d);
    }
  }

  lemma {:induction false} DayZero()
    ensures DayNumber(Date(0, 0, 0)) == 0
  {}

  /** Dates are those of the Gregorian calendar: the date of a day has that day's number. */
  lemma {:induction false} DateOfIsGregorian(day: nat)
    ensures DayNumber(DateOf(day)) == day
  {
    YearOfNumber(0, day);
    DayZero();
  }

  lemma {:induction false} DateIsPossible(day: nat)
    ensures DateOf(day).month <= 11 && DateOf(day).day < MonthLength(DateOf(day).year, DateOf(day).month)
  {
    YearOfBounds(0, day);
  }

  lemma {:induction false} MonthsAreShort(y: nat, m: nat)
    ensures MonthLength(y, m) <= 31
  {}

  /** 1970-01-01 is the day of instant 0, a Thursday; every day has 86400 seconds. */
  lemma {:induction false} InstantsStartIn1970(ms: int)
    ensures DayNumber(Date(1970, 0, 0)) == DayOfInstant(0) && Weekday(DayOfInstant(0)) == 4
    ensures var days := DayOfInstant(ms) - DayOfInstant(0); days * 86_400_000 <= ms < (days + 1) * 86_400_000
  {}

  lemma {:induction false} NextWeekday(day: nat)
    ensures Weekday(day + 1) == if Weekday(day) == 6 then 0 else Weekday(day) + 1
  {}

  // ---------------------------------------------------------------- reading texts back

  function NumberOf(s: string): int {
    if s == "" then 0 else 10 * NumberOf(s[..|s| - 1]) + (s[|s| - 1] as int - '0' as int)
  }

  lemma {:induction false} PadReads(v: nat, width: nat)
    requires v < Power10(width)
    ensures NumberOf(Pad(v, width)) == v
  {
    if width > 0 {
      PadReads(v / 10, width - 1);
      assert Pad(v, width)[..width - 1] == Pad(v / 10, width - 1);
    }
  }

  /** A day's text is its year, month and day, counted from 1, with hyphens. */
  lemma {:induction false} DayKeyReads(day: nat)
    requires DateOf(day).year < 10_000
    ensures var s := DayKey(day);
      && s[4] == '-' && s[7] == '-'
      && NumberOf(s[..4]) == DateOf(day).year && NumberOf(s[5..7]) == DateOf(day).month + 1
      && NumberOf(s[8..]) == DateOf(day).day + 1
  {
    var d := DateOf(day);
    DateIsPossible(day);
    MonthsAreShort(d.year, d.month);
    DateTextReads(d);
  }

  lemma {:induction false} DateTextReads(d: Date)
    requires d.year < 10_000 && d.month < 12 && d.day < 31
    ensures var s := DateText(d);
      && s[4] == '-' && s[7] == '-'
      && NumberOf(s[..4]) == d.year && NumberOf(s[5..7]) == d.month + 1 && NumberOf(s[8..]) == d.day + 1
  {
    PadsRead(d);
    HyphenParts(Pad(d.year, 4), Pad(d.month + 1, 2), Pad(d.day + 1, 2));
  }

  lemma {:induction false} PadsRead(d: Date)
    requires d.year < 10_000 && d.month < 12 && d.day < 31
    ensures NumberOf(Pad(d.year, 4)) == d.year
    ensures NumberOf(Pad(d.month + 1, 2)) == d.month + 1 && NumberOf(Pad(d.day + 1, 2)) == d.day + 1
  {
    PowersOf10();
    PadReads(d.year, 4);
    PadReads(d.month + 1, 2);
    PadReads(d.day + 1, 2);
  }

  lemma {:induction false} HyphenParts(y: string, m: string, d: string)
    requires |y| == 4 && |m| == 2 && |d| == 2
    ensures var s := y + "-" + m + "-" + d;
      |s| == 10 && s[4] == '-' && s[7] == '-' && s[..4] == y && s[5..7] == m && s[8..] == d
  {}

  /** The time of day in a text: hours, minutes, seconds and milliseconds add up to it. */
  lemma {:induction false} TimeTextReads(ms: nat)
    requires ms < 86_400_000
    ensures var s := TimeText(ms);
      && s[0] == 'T' && s[3] == ':' && s[6] == ':' && s[9] == '.' && s[13] == 'Z'
      && var h := NumberOf(s[1..3]); var m := NumberOf(s[4..6]); var sec := NumberOf(s[7..9]);
         m < 60 && sec < 60 && ((h * 60 + m) * 60 + sec) * 1000 + NumberOf(s[10..13]) == ms && NumberOf(s[10..13]) < 1000
  {
    PowersOf10();
    var s := TimeText(ms);
    var h, m, sec, milli := ms / 3_600_000, ms / 60_000 % 60, ms / 1000 % 60, ms % 1000;
    PadReads(h, 2);
    PadReads(m, 2);
    PadReads(sec, 2);
    PadReads(milli, 3);
    assert s[1..3] == Pad(h, 2) && s[4..6] == Pad(m, 2) && s[7..9] == Pad(sec, 2) && s[10..13] == Pad(milli, 3);
    ClockAddsUp(ms);
  }

  lemma {:induction false} ClockAddsUp(ms: nat)
    ensures ((ms / 3_600_000 * 60 + ms / 60_000 % 60) * 60 + ms / 1000 % 60) * 1000 + ms % 1000 == ms
  {
    var s := ms / 1000;
    var m := s / 60;
    assert s / 60 == ms / 60_000 && m / 60 == ms / 3_600_000;
    assert ms == s * 1000 + ms % 1000 && s == m * 60 + s % 60 && m == m / 60 * 60 + m % 60;
  }

  /** The text of an instant is its day's text and its time of day. */
  lemma {:induction false} IsoReads(ms: int)
    requires DayOfInstant(ms) >= 0
    ensures Iso(ms)[..10] == DayKey(DayOfInstant(ms))
    ensures Iso(ms)[10..] == TimeText(ms - (DayOfInstant(ms) - DayOfInstant(0)) * 86_400_000)
  {}

  /** Code-unit order of strings, on which `localeCompare` agrees for these formats. */
  predicate TextLess(a: string, b: string) {
    if b == "" then false
    else if a == "" then true
    else a[0] < b[0] || (a[0] == b[0] && TextLess(a[1..], b[1..]))
  }

  lemma {:induction false} TextLessConcat(a: string, b: string, x: string, y: string)
    requires |a| == |b|
    ensures TextLess(a, b) ==> TextLess(a + x, b + y)
    ensures a == b ==> TextLess(a + x, b + y) == TextLess(x, y)
  {
    if a == "" {
      assert a + x == x && b + y == y;
    } else {
      TextLessConcat(a[1..], b[1..], x, y);
      assert (a + x)[1..] == a[1..] + x && (b + y)[1..] == b[1..] + y;
    }
  }

  lemma {:induction false} TextLessIrreflexive(a: string)
    ensures !TextLess(a, a)
  {
    if a != "" { TextLessIrreflexive(a[1..]); }
  }

  function Power10(w: nat): nat {
    if w == 0 then 1 else 10 * Power10(w - 1)
  }

  lemma {:induction false} PadOrdered(u: nat, v: nat, width: nat)
    requires u < v < Power10(width)
    ensures TextLess(Pad(u, width), Pad(v, width))
  {
    if width > 0 {
      if u / 10 < v / 10 {
        PadOrdered(u / 10, v / 10, width - 1);
      }
      TextLessConcat(Pad(u / 10, width - 1), Pad(v / 10, width - 1), [Digit(u % 10)], [Digit(v % 10)]);
    }
  }

  lemma {:induction false} JoinedOrdered(ya: string, ma: string, da: string, yb: string, mb: string, db: string)
    requires |ya| == |yb| && |ma| == |mb| && |da| == |db|
    requires TextLess(ya, yb) || (ya == yb && (TextLess(ma, mb) || (ma == mb && TextLess(da, db))))
    ensures TextLess(ya + "-" + ma + "-" + da, yb + "-" + mb + "-" + db)
  {
    assert ya + "-" + ma + "-" + da == ya + ("-" + (ma + ("-" + da)));
    assert yb + "-" + mb + "-" + db == yb + ("-" + (mb + ("-" + db)));
    TextLessConcat(ya, yb, "-" + (ma + ("-" + da)), "-" + (mb + ("-" + db)));
    TextLessConcat("-", "-", ma + ("-" + da), mb + ("-" + db));
    TextLessConcat(ma, mb, "-" + da, "-" + db);
    TextLessConcat("-", "-", da, db);
  }

  lemma {:induction false} PowersOf10()
    ensures Power10(2) == 100 && Power10(3) == 1000 && Power10(4) == 10_000
  {
    assert Power10(1) == 10 && Power10(2) == 100 && Power10(3) == 1000;
  }

  lemma {:induction false} DateTextOrdered(a: Date, b: Date)
    requires Before(a, b) && a.year < 10_000 && b.year < 10_000
    requires a.month <= 11 && b.month <= 11 && a.day < 31 && b.day < 31
    ensures TextLess(DateText(a), DateText(b))
  {
    PowersOf10();
    if a.year < b.year { PadOrdered(a.year, b.year, 4); }
    else if a.month < b.month { PadOrdered(a.month + 1, b.month + 1, 2); }
    else { PadOrdered(a.day + 1, b.day + 1, 2); }
    JoinedOrdered(Pad(a.year, 4), Pad(a.month + 1, 2), Pad(a.day + 1, 2), Pad(b.year, 4), Pad(b.month + 1, 2), Pad(b.day + 1, 2));
  }

  /** Day keys sort as text the way the days follow one another. */
  lemma {:induction false} DayKeysOrdered(c: nat, d: nat)
    requires c < d && DateOf(d).year < 10_000
    ensures TextLess(DayKey(c), DayKey(d))
  {
    YearOfOrdered(0, c, d);
    YearOfBounds(0, c);
    YearOfBounds(0, d);
    DateTextOrdered(DateOf(c), DateOf(d));
  }
}
