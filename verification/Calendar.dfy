/** Dates of crates/talon-backend/src/azure_sharedkey.rs: `civil_from_days` against the
    day-by-day Gregorian calendar, and `rfc1123_date` against a reader of its text. */
module Calendar {
  import opened Text

  // ----- the code --------------------------------------------------------

  /** Rust's `/` on signed integers. */
  function TruncDiv(a: int, b: int): int
    requires 0 < b
  {
    if 0 <= a then a / b else -((-a) / b)
  }

  datatype Date = Date(year: int, month: int, day: int)

  function YearOfEra(doe: nat): int {
    (doe - doe / 1460 + doe / 36524 - doe / 146096) / 365
  }

  function DayOfYear(doe: nat, yoe: int): int {
    doe - (365 * yoe + yoe / 4 - yoe / 100)
  }

  /** Month, day and year from the day of a year that starts in March. */
  function MarchDate(y: int, doy: int): Date {
    var mp := (5 * doy + 2) / 153;
    var d := doy - (153 * mp + 2) / 5 + 1;
    var m := if mp < 10 then mp + 3 else mp - 9;
    Date(if m <= 2 then y + 1 else y, m, d)
  }

  function Era(z: int): int {
    TruncDiv(if 0 <= z then z else z - 146096, 146097)
  }

  /** `civil_from_days`, on unbounded integers. */
  function CivilFromDays(days: int): Date {
    var z := days + 719468;
    var doe := DayOfEra(z);
    var yoe := YearOfEra(doe);
    MarchDate(yoe + Era(z) * 400, DayOfYear(doe, yoe))
  }

  /** The remainder that the code casts to an unsigned integer. */
  function DayOfEra(z: int): (doe: nat)
    ensures z == Era(z) * 146097 + doe && doe < 146097
  {
    z - Era(z) * 146097
  }

  // ----- the calendar ----------------------------------------------------

  predicate IsLeap(year: int) {
    year % 4 == 0 && (year % 100 != 0 || year % 400 == 0)
  }

  function DaysIn(year: int, month: int): int {
    if month == 2 then (if IsLeap(year) then 29 else 28)
    else if month in {4, 6, 9, 11} then 30
    else 31
  }

  predicate ValidDate(d: Date) {
    1 <= d.month <= 12 && 1 <= d.day <= DaysIn(d.year, d.month)
  }

  /** The next day. */
  function Tomorrow(d: Date): Date {
    if d.day < DaysIn(d.year, d.month) then Date(d.year, d.month, d.day + 1)
    else if d.month < 12 then Date(d.year, d.month + 1, 1)
    else Date(d.year + 1, 1, 1)
  }

  const EPOCH := Date(1970, 1, 1)

  /** The date `n` days after `d`, one day at a time. */
  function After(d: Date, n: nat): Date {
    if n == 0 then d else Tomorrow(After(d, n - 1))
  }

  // ----- counting days ---------------------------------------------------

  /** Months counted from March. */
  function MonthFromMarch(m: int): int {
    if m <= 2 then m + 9 else m - 3
  }

  function MarchYear(d: Date): int {
    if d.month <= 2 then d.year - 1 else d.year
  }

  function DayOfMarchYear(d: Date): int {
    (153 * MonthFromMarch(d.month) + 2) / 5 + d.day - 1
  }

  function DaysBeforeYear(yoe: int): int {
    365 * yoe + yoe / 4 - yoe / 100
  }

  /** Days since the epoch. */
  function DaysFromCivil(d: Date): int {
    var y := MarchYear(d);
    y / 400 * 146097 + DaysBeforeYear(y % 400) + DayOfMarchYear(d) - 719468
  }

  /** The last day of a March year is day 365 exactly when the following February is leap. */
  predicate InYear(yoe: int, doy: int) {
    0 <= doy <= 365 && (doy == 365 ==> IsLeap(yoe + 1))
  }

  lemma CenturySplit(yoe: int)
    requires 0 <= yoe < 400
    ensures var c, q, r := yoe / 100, yoe % 100 / 4, yoe % 4;
            && 0 <= c <= 3 && 0 <= q <= 24 && 0 <= r <= 3
            && yoe == 100 * c + 4 * q + r && yoe / 4 == 25 * c + q
            && DaysBeforeYear(yoe) == 36524 * c + 1461 * q + 365 * r
  {
  }

  /** The leap-day corrections of the code divide out exactly. */
  lemma YearOfEraIs(yoe: int, doy: int)
    requires 0 <= yoe < 400 && InYear(yoe, doy)
    ensures var doe := DaysBeforeYear(yoe) + doy;
            0 <= doe < 146097 && YearOfEra(doe) == yoe && DayOfYear(doe, yoe) == doy
  {
    var c, q, r := yoe / 100, yoe % 100 / 4, yoe % 4;
    CenturySplit(yoe);
    var doe := DaysBeforeYear(yoe) + doy;
    LastDayOfYear(yoe, doy, c, q, r);
    CenturyOf(doe, c, 1461 * q + 365 * r + doy);
    FourYearsOf(doe, c, q, r, doy);
  }

  lemma LastDayOfYear(yoe: int, doy: int, c: int, q: int, r: int)
    requires yoe == 100 * c + 4 * q + r && 0 <= c <= 3 && 0 <= q <= 24 && 0 <= r <= 3 && InYear(yoe, doy)
    ensures doy == 365 ==> r == 3 && (q < 24 || c == 3)
  {
  }

  lemma CenturyOf(doe: int, c: int, x: int)
    requires 0 <= c <= 3 && 0 <= x <= 36524 && (x == 36524 ==> c == 3) && doe == 36524 * c + x
    ensures 0 <= doe < 146097 && doe / 36524 - doe / 146096 == c
  {
  }

  lemma FourYearsOf(doe: int, c: int, q: int, r: int, doy: int)
    requires 0 <= c <= 3 && 0 <= q <= 24 && 0 <= r <= 3 && 0 <= doy <= 365
    requires doy == 365 ==> r == 3
    requires doe == 36524 * c + 1461 * q + 365 * r + doy
    ensures (doe - doe / 1460 + c) / 365 == 100 * c + 4 * q + r
  {
    var rem := 24 * c + q + 365 * r + doy;
    assert doe == 1460 * (25 * c + q) + rem;
    var e := if 1460 <= rem then 1 else 0;
    assert doe / 1460 == 25 * c + q + e;
    assert doe - doe / 1460 + c == 365 * (100 * c + 4 * q + r) + (doy - e);
  }

  lemma Mod4(x: int, q: int, r: int)
    requires x == 4 * q + r && 0 <= r < 4
    ensures x % 4 == r
  {
  }

  lemma Mod100(x: int, q: int, r: int)
    requires x == 100 * q + r && 0 <= r < 100
    ensures x % 100 == r
  {
  }

  lemma Mod400(x: int, q: int, r: int)
    requires x == 400 * q + r && 0 <= r < 400
    ensures x % 400 == r
  {
  }

  lemma LeapIsPeriodic(y: int)
    ensures IsLeap(y + 1) <==> IsLeap(y % 400 + 1)
  {
    var k, r := y / 400, y % 400;
    var n := r + 1;
    Mod4(y + 1, 100 * k + n / 4, n % 4);
    Mod100(y + 1, 4 * k + n / 100, n % 100);
    Mod400(y + 1, k + n / 400, n % 400);
  }

  /** Days before each month of a March year, and the month's length. */
  lemma MonthOffsets(mp: int)
    requires 0 <= mp <= 11
    ensures var before := (153 * mp + 2) / 5;
            before == [0, 31, 61, 92, 122, 153, 184, 214, 245, 275, 306, 337][mp]
  {
  }

  lemma MonthOf(mp: int, d: int)
    requires 0 <= mp <= 11 && 1 <= d <= 31 && (mp in {1, 3, 6, 8} ==> d <= 30) && (mp == 11 ==> d <= 29)
    ensures (5 * ((153 * mp + 2) / 5 + d - 1) + 2) / 153 == mp
  {
    MonthOffsets(mp);
    assert mp in {0, 1, 2, 3, 4, 5} || mp in {6, 7, 8, 9, 10, 11};
  }

  /** The month arithmetic of the code undoes the day count of a March year. */
  lemma MarchDateIs(d: Date)
    requires ValidDate(d)
    ensures MarchDate(MarchYear(d), DayOfMarchYear(d)) == d
    ensures InYear(MarchYear(d) % 400, DayOfMarchYear(d))
  {
    var mp := MonthFromMarch(d.month);
    MonthOf(mp, d.day);
    MonthOffsets(mp);
    LeapIsPeriodic(MarchYear(d));
  }

  lemma EraIs(k: int, doe: int)
    requires 0 <= doe < 146097
    ensures Era(k * 146097 + doe) == k
  {
  }

  /** The code inverts the day count on every calendar date. */
  lemma CivilUndoesCount(d: Date)
    requires ValidDate(d)
    ensures CivilFromDays(DaysFromCivil(d)) == d
  {
    hide YearOfEra, DayOfYear, DaysBeforeYear, MarchDate, DayOfMarchYear, InYear, Era, ValidDate;
    var y, doy := MarchYear(d), DayOfMarchYear(d);
    MarchDateIs(d);
    YearOfEraIs(y % 400, doy);
    EraIs(y / 400, DaysBeforeYear(y % 400) + doy);
  }

  lemma NextYearStarts(y: int)
    ensures var y' := y + 1;
            y' / 400 * 146097 + DaysBeforeYear(y' % 400) ==
            y / 400 * 146097 + DaysBeforeYear(y % 400) + (if IsLeap(y + 1) then 366 else 365)
  {
    LeapIsPeriodic(y);
    var k, r := y / 400, y % 400;
    assert y == 400 * k + r;
    if r == 399 {
      assert y + 1 == 400 * (k + 1);
      assert (y + 1) / 400 == k + 1 && (y + 1) % 400 == 0;
    } else {
      assert (y + 1) / 400 == k && (y + 1) % 400 == r + 1;
      NextYearInEra(r);
    }
  }

  lemma NextYearInEra(r: int)
    requires 0 <= r < 399
    ensures DaysBeforeYear(r + 1) == DaysBeforeYear(r) + (if IsLeap(r + 1) then 366 else 365)
  {
    assert (r + 1) / 4 == r / 4 + (if (r + 1) % 4 == 0 then 1 else 0);
    assert (r + 1) / 100 == r / 100 + (if (r + 1) % 100 == 0 then 1 else 0);
  }

  /** The next calendar day is a calendar day, and the count goes up by one. */
  lemma TomorrowCounts(d: Date)
    requires ValidDate(d)
    ensures ValidDate(Tomorrow(d))
    ensures DaysFromCivil(Tomorrow(d)) == DaysFromCivil(d) + 1
  {
    hide DaysBeforeYear, IsLeap;
    var mp := MonthFromMarch(d.month);
    MonthOffsets(mp);
    if d.day == DaysIn(d.year, d.month) {
      if d.month == 2 {
        NextYearStarts(d.year - 1);
      } else {
        MonthOffsets(mp + 1);
      }
    }
  }

  /** Every day of an era lies in exactly one of its years. */
  lemma EraSplit(doe: nat) returns (yoe: int, doy: int)
    requires doe < 146097
    ensures 0 <= yoe < 400 && InYear(yoe, doy) && doe == DaysBeforeYear(yoe) + doy
  {
    var c := if doe / 36524 <= 3 then doe / 36524 else 3;
    var x := doe - 36524 * c;
    var q := if x / 1461 <= 24 then x / 1461 else 24;
    var w := x - 1461 * q;
    var r := if w / 365 <= 3 then w / 365 else 3;
    yoe, doy := 100 * c + 4 * q + r, w - 365 * r;
    SplitLeap(c, q, r, doy);
    CenturySplit(yoe);
  }

  lemma SplitLeap(c: int, q: int, r: int, doy: int)
    requires 0 <= c <= 3 && 0 <= q <= 24 && 0 <= r <= 3
    requires doy == 365 ==> r == 3 && (q < 24 || c == 3)
    ensures var yoe := 100 * c + 4 * q + r;
            && yoe / 100 == c && yoe % 100 / 4 == q && yoe % 4 == r
            && (doy == 365 ==> IsLeap(yoe + 1))
  {
  }

  /** A date of the given March year and day exists. */
  lemma MarchDateExists(y: int, doy: int) returns (d: Date)
    requires InYear(y % 400, doy)
    ensures ValidDate(d) && MarchYear(d) == y && DayOfMarchYear(d) == doy
  {
    LeapIsPeriodic(y);
    var mp := if doy < 31 then 0 else if doy < 61 then 1 else if doy < 92 then 2 else if doy < 122 then 3
    else if doy < 153 then 4 else if doy < 184 then 5 else if doy < 214 then 6 else if doy < 245 then 7
    else if doy < 275 then 8 else if doy < 306 then 9 else if doy < 337 then 10 else 11;
    MonthOffsets(mp);
    var m := if mp < 10 then mp + 3 else mp - 9;
    d := Date(if m <= 2 then y + 1 else y, m, doy - (153 * mp + 2) / 5 + 1);
  }

  /** Every integer is the count of the date that the code computes for it. */
  lemma CountUndoesCivil(days: int)
    ensures ValidDate(CivilFromDays(days)) && DaysFromCivil(CivilFromDays(days)) == days
  {
    hide YearOfEra, DayOfYear, DaysBeforeYear, MarchDate, DayOfMarchYear, InYear, Era, ValidDate, MarchYear,
      CivilFromDays;
    var z := days + 719468;
    var k, doe := Era(z), DayOfEra(z);
    var yoe, doy := EraSplit(doe);
    var y := yoe + 400 * k;
    assert y / 400 == k && y % 400 == yoe;
    var d := MarchDateExists(y, doy);
    CivilUndoesCount(d);
  }

  /** `civil_from_days` is the Gregorian calendar: day 0 is 1970-01-01, and from any
      integer, stepping `n` calendar days is adding `n`. */
  lemma {:induction false} CivilRefinesCalendar(days: int, n: nat)
    ensures CivilFromDays(0) == EPOCH
    ensures ValidDate(CivilFromDays(days))
    ensures After(CivilFromDays(days), n) == CivilFromDays(days + n)
  {
    hide CivilFromDays, DaysFromCivil, Tomorrow, ValidDate;
    EpochIsDayZero();
    CountUndoesCivil(days);
    if n == 0 {
    } else {
      CivilRefinesCalendar(days, n - 1);
      var d := CivilFromDays(days + (n - 1));
      CountUndoesCivil(days + (n - 1));
      TomorrowCounts(d);
      CivilUndoesCount(Tomorrow(d));
    }
  }

  lemma EpochIsDayZero()
    ensures CivilFromDays(0) == EPOCH
  {
    hide CivilFromDays;
    CivilUndoesCount(EPOCH);
  }

  // ----- IMF-fixdate text ------------------------------------------------

  const WEEKDAYS: seq<string> := ["Sun", "Mon", "Tue", "Wed", "Thu", "Fri", "Sat"]

  const MONTHS: seq<string> :=
    ["Jan", "Feb", "Mar", "Apr", "May", "Jun", "Jul", "Aug", "Sep", "Oct", "Nov", "Dec"]

  function Weekday(days: nat): string {
    WEEKDAYS[(days % 7 + 4 + 7) % 7]
  }

  /** 1970-01-01 was a Thursday, and each day has the name after the day before. */
  lemma WeekdaysCycle(days: nat)
    ensures Weekday(0) == "Thu"
    ensures Weekday(days) == ["Thu", "Fri", "Sat", "Sun", "Mon", "Tue", "Wed"][days % 7]
    ensures var i := (days + 4) % 7; Weekday(days) == WEEKDAYS[i] && Weekday(days + 1) == WEEKDAYS[(i + 1) % 7]
  {
    NextMod7(days);
  }

  lemma NextMod7(days: nat)
    ensures (days % 7 + 4 + 7) % 7 == (days + 4) % 7
    ensures ((days + 1) % 7 + 4 + 7) % 7 == ((days + 4) % 7 + 1) % 7
  {
    var q, r := days / 7, days % 7;
    var carry := if r < 3 then 0 else 1;
    Mod7(days + 4, q + carry, r + 4 - 7 * carry);
    Mod7(days + 1, q + (if r == 6 then 1 else 0), if r == 6 then 0 else r + 1);
  }

  lemma Mod7(x: int, q: int, r: int)
    requires x == 7 * q + r && 0 <= r < 7
    ensures x % 7 == r
  {
  }

  function Concat(parts: seq<string>): string {
    if parts == [] then "" else parts[0] + Concat(parts[1..])
  }

  lemma {:induction false} NeverBefore1970(n: nat)
    ensures 1970 <= After(EPOCH, n).year
  {
    if n == 0 {
    } else {
      NeverBefore1970(n - 1);
    }
  }

  lemma DayIsAfterEpoch(days: nat)
    ensures ValidDate(CivilFromDays(days)) && 1970 <= CivilFromDays(days).year
  {
    hide CivilFromDays, ValidDate, After;
    CivilRefinesCalendar(0, days);
    CountUndoesCivil(days);
    NeverBefore1970(days);
  }

  /** The pieces of the text, in order. */
  function DateFields(secs: nat): (r: seq<string>)
    ensures |r| == 14
  {
    var days, sod := secs / 86400, secs % 86400;
    DayIsAfterEpoch(days);
    var date := CivilFromDays(days);
    [Weekday(days), ", ", PrintPadded(date.day, 2), " ", MONTHS[date.month - 1], " ",
     PrintPadded(date.year, 4), " ", PrintPadded(sod / 3600, 2), ":", PrintPadded(sod % 3600 / 60, 2), ":",
     PrintPadded(sod % 60, 2), " GMT"]
  }

  /** `rfc1123_date` of a time given in whole seconds since the epoch. */
  function Rfc1123Date(secs: nat): string {
    Concat(DateFields(secs))
  }

  /** The fixed columns of an IMF-fixdate (RFC 7231, section 7.1.1.1). */
  const WIDTHS: seq<nat> := [3, 2, 2, 1, 3, 1, 4, 1, 2, 1, 2, 1, 2, 4]

  function Columns(s: string, widths: seq<nat>): Option<seq<string>> {
    if widths == [] then (if s == "" then Some([]) else None)
    else if |s| < widths[0] then None
    else
      match Columns(s[widths[0]..], widths[1..])
      case None => None
      case Some(rest) => Some([s[..widths[0]]] + rest)
  }

  predicate HasWidths(parts: seq<string>, widths: seq<nat>) {
    |parts| == |widths| && forall i :: 0 <= i < |parts| ==> |parts[i]| == widths[i]
  }

  lemma {:induction false} ColumnsOf(parts: seq<string>, widths: seq<nat>)
    requires HasWidths(parts, widths)
    ensures Columns(Concat(parts), widths) == Some(parts)
  {
    if parts == [] {
    } else {
      var rest := Concat(parts[1..]);
      ColumnsOf(parts[1..], widths[1..]);
      assert (parts[0] + rest)[..|parts[0]|] == parts[0] && (parts[0] + rest)[|parts[0]|..] == rest;
      HeadTail(parts, []);
    }
  }

  function IndexIn(names: seq<string>, name: string): Option<nat> {
    if names == [] then None
    else if names[0] == name then Some(0)
    else Shifted(IndexIn(names[1..], name), 1)
  }

  /** Reading the text back: names, separators, digits, a calendar date that falls on the
      named weekday, and a time of day. */
  function ReadDate(s: string): Option<nat> {
    match Columns(s, WIDTHS)
    case None => None
    case Some(f) => if |f| == 14 then ReadFields(f) else None
  }

  function ReadFields(f: seq<string>): Option<nat>
    requires |f| == 14
  {
    var month := IndexIn(MONTHS, f[4]);
    if || f[1] != ", " || f[3] != " " || f[5] != " " || f[7] != " " || f[9] != ":" || f[11] != ":" || f[13] != " GMT"
       || !AllDigits(f[2]) || !AllDigits(f[6]) || !AllDigits(f[8]) || !AllDigits(f[10]) || !AllDigits(f[12])
       || month.None?
    then None
    else
      ReadParts(f[0], Date(DigitsValue(f[6]), month.value + 1, DigitsValue(f[2])),
                DigitsValue(f[8]), DigitsValue(f[10]), DigitsValue(f[12]))
  }

  function ReadParts(weekday: string, date: Date, hour: nat, minute: nat, second: nat): Option<nat> {
    if !ValidDate(date) || 24 <= hour || 60 <= minute || 60 <= second then None
    else
      var days := DaysFromCivil(date);
      if days < 0 || Weekday(days) != weekday then None
      else Some(days * 86400 + hour * 3600 + minute * 60 + second)
  }

  lemma {:induction false} IndexOfDistinct(names: seq<string>, i: nat)
    requires i < |names| && forall j :: 0 <= j < i ==> names[j] != names[i]
    ensures IndexIn(names, names[i]) == Some(i)
  {
    if i == 0 {
    } else {
      IndexOfDistinct(names[1..], i - 1);
    }
  }

  /** The last two letters of a month name tell it from the others. */
  lemma MonthLetters(i: nat)
    requires i < 12
    ensures |MONTHS[i]| == 3
    ensures MONTHS[i][1] == "aeapauuuecoe"[i] && MONTHS[i][2] == "nbrrynlgptvc"[i]
  {
  }

  lemma MonthsAreDistinct(i: nat)
    requires i < 12
    ensures IndexIn(MONTHS, MONTHS[i]) == Some(i)
  {
    hide IndexIn;
    forall j | 0 <= j < i
      ensures MONTHS[j] != MONTHS[i]
    {
      MonthLetters(i);
      MonthLetters(j);
    }
    IndexOfDistinct(MONTHS, i);
  }

  lemma FieldWidths(secs: nat)
    requires CivilFromDays(secs / 86400).year <= 9999
    ensures HasWidths(DateFields(secs), WIDTHS)
  {
    hide CivilFromDays, PrintPadded;
    var days, sod := secs / 86400, secs % 86400;
    DayIsAfterEpoch(days);
    var date := CivilFromDays(days);
    PaddedField(date.day, 2);
    PaddedField(date.year, 4);
    PaddedField(sod / 3600, 2);
    PaddedField(sod % 3600 / 60, 2);
    PaddedField(sod % 60, 2);
  }

  /** Reading back the printed date gives the same second, for every time up to the end of
      the year 9999, the last that fits the four-digit year. */
  lemma Rfc1123RoundTrip(secs: nat)
    requires CivilFromDays(secs / 86400).year <= 9999
    ensures ReadDate(Rfc1123Date(secs)) == Some(secs)
  {
    hide CivilFromDays, Columns, Concat, ReadFields, DateFields;
    FieldWidths(secs);
    ColumnsOf(DateFields(secs), WIDTHS);
    FieldsRead(secs);
  }

  lemma FieldsRead(secs: nat)
    requires CivilFromDays(secs / 86400).year <= 9999
    ensures ReadFields(DateFields(secs)) == Some(secs)
  {
    hide CivilFromDays, PrintPadded, DigitsValue, IndexIn, Weekday, ValidDate, DaysFromCivil;
    var days, sod := secs / 86400, secs % 86400;
    DayIsAfterEpoch(days);
    var date := CivilFromDays(days);
    CountUndoesCivil(days);
    MonthIsInRange(date);
    MonthsAreDistinct(date.month - 1);
    PaddedField(date.day, 2);
    PaddedField(date.year, 4);
    PaddedField(sod / 3600, 2);
    PaddedField(sod % 3600 / 60, 2);
    PaddedField(sod % 60, 2);
  }

  /** The months in order. */
  lemma MonthNames()
    ensures MONTHS[0] == "Jan" && MONTHS[1] == "Feb" && MONTHS[2] == "Mar" && MONTHS[3] == "Apr"
    ensures MONTHS[4] == "May" && MONTHS[5] == "Jun" && MONTHS[6] == "Jul" && MONTHS[7] == "Aug"
    ensures MONTHS[8] == "Sep" && MONTHS[9] == "Oct" && MONTHS[10] == "Nov" && MONTHS[11] == "Dec"
  {
  }

  /** The example of RFC 7231, section 7.1.1.1, piece by piece. */
  lemma Rfc1123Example()
    ensures DateFields(784111777)
         == ["Sun", ", ", "06", " ", "Nov", " ", "1994", " ", "08", ":", "49", ":", "37", " GMT"]
  {
    hide PrintPadded, CivilFromDays, Weekday;
    assert CivilFromDays(9075) == Date(1994, 11, 6) by { ExampleDay(); }
    MonthNames();
    WeekdaysCycle(9075);
    ExampleDigits();
  }

  lemma ExampleDay()
    ensures CivilFromDays(9075) == Date(1994, 11, 6)
  {
    hide CivilFromDays;
    var d := Date(1994, 11, 6);
    assert ValidDate(d) && DaysFromCivil(d) == 9075;
    CivilUndoesCount(d);
  }

  lemma ExampleDigits()
    ensures PrintPadded(6, 2) == "06" && PrintPadded(8, 2) == "08" && PrintPadded(49, 2) == "49"
    ensures PrintPadded(37, 2) == "37" && PrintPadded(1994, 4) == "1994"
  {
    assert PrintNat(4) == "4" && PrintNat(49) == "49" && PrintNat(3) == "3" && PrintNat(37) == "37";
    assert PrintNat(1) == "1" && PrintNat(19) == "19" && PrintNat(199) == "199" && PrintNat(1994) == "1994";
    assert ['0'] + PrintNat(6) == "06" && ['0'] + PrintNat(8) == "08";
  }

  lemma MonthIsInRange(d: Date)
    requires ValidDate(d)
    ensures 1 <= d.month <= 12 && 1 <= d.day <= 31
  {
  }
}
