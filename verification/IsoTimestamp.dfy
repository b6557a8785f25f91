/**
 * `expires_at` on SQLite: the text of `Date.prototype.toISOString`, compared as text. Calendar and format as in
 * sections 15.9.1 and 15.9.1.15 of ECMA-262 edition 5.1; times are epoch milliseconds.
 */
module IsoTimestamp {
  import TextOrder

  const MS_PER_DAY := 86_400_000

  // Calendar

  predicate IsLeap(y: int) {
    y % 4 == 0 && (y % 100 != 0 || y % 400 == 0)
  }

  function DaysInYear(y: int): int {
    if IsLeap(y) then 366 else 365
  }

  /** Number of the first day of year `y`. */
  function DayFromYear(y: int): int {
    365 * (y - 1970) + (y - 1969) / 4 - (y - 1901) / 100 + (y - 1601) / 400
  }

  lemma FourthYear(y: int)
    ensures (y - 1968) / 4 == (y - 1969) / 4 + if y % 4 == 0 then 1 else 0
  {
  }

  lemma HundredthYear(y: int)
    ensures (y - 1900) / 100 == (y - 1901) / 100 + if y % 100 == 0 then 1 else 0
  {
  }

  lemma FourHundredthYear(y: int)
    ensures (y - 1600) / 400 == (y - 1601) / 400 + if y % 400 == 0 then 1 else 0
  {
  }

  lemma FourCenturies(q: int)
    ensures 400 * q % 100 == 0
  {
    assert 400 * q == 100 * (4 * q);
  }

  lemma Century(q: int)
    ensures 100 * q % 4 == 0
  {
    assert 100 * q == 4 * (25 * q);
  }

  lemma LeapDivides(y: int)
    ensures y % 400 == 0 ==> y % 100 == 0
    ensures y % 100 == 0 ==> y % 4 == 0
  {
    FourCenturies(y / 400);
    Century(y / 100);
    assert y % 400 == 0 ==> y == 400 * (y / 400);
    assert y % 100 == 0 ==> y == 100 * (y / 100);
  }

  lemma NextYear(y: int)
    ensures DayFromYear(y + 1) == DayFromYear(y) + DaysInYear(y)
  {
    FourthYear(y);
    HundredthYear(y);
    FourHundredthYear(y);
    LeapDivides(y);
  }

  lemma {:induction false} YearsAscend(y: int, z: int)
    requires y <= z
    ensures DayFromYear(y) + 365 * (z - y) <= DayFromYear(z)
    decreases z - y
  {
    if y < z {
      NextYear(y);
      YearsAscend(y + 1, z);
    }
  }

  function YearAfter(day: int, y: int): (r: int)
    requires DayFromYear(y) <= day
    ensures r >= y && DayFromYear(r) <= day < DayFromYear(r + 1)
    decreases day - DayFromYear(y)
  {
    NextYear(y);
    if day < DayFromYear(y + 1) then y else YearAfter(day, y + 1)
  }

  function YearBefore(day: int, y: int): (r: int)
    requires day < DayFromYear(y)
    ensures r < y && DayFromYear(r) <= day < DayFromYear(r + 1)
    decreases DayFromYear(y) - day
  {
    NextYear(y - 1);
    if DayFromYear(y - 1) <= day then y - 1 else YearBefore(day, y - 1)
  }

  function YearFromDay(day: int): (y: int)
    ensures DayFromYear(y) <= day < DayFromYear(y + 1)
  {
    if DayFromYear(1970) <= day then YearAfter(day, 1970) else YearBefore(day, 1970)
  }

  /** First day of month `m` (0 to 11), counted from the start of the year; month 12 is the next January. */
  function MonthStart(leap: bool, m: int): int
    requires 0 <= m <= 12
  {
    var common := [0, 31, 59, 90, 120, 151, 181, 212, 243, 273, 304, 334, 365];
    common[m] + if leap && m >= 2 then 1 else 0
  }

  function MonthFromDay(leap: bool, d: int): (m: int)
    requires 0 <= d < (if leap then 366 else 365)
    ensures 0 <= m < 12 && MonthStart(leap, m) <= d < MonthStart(leap, m + 1)
  {
    if d < MonthStart(leap, 1) then 0
    else if d < MonthStart(leap, 2) then 1
    else if d < MonthStart(leap, 3) then 2
    else if d < MonthStart(leap, 4) then 3
    else if d < MonthStart(leap, 5) then 4
    else if d < MonthStart(leap, 6) then 5
    else if d < MonthStart(leap, 7) then 6
    else if d < MonthStart(leap, 8) then 7
    else if d < MonthStart(leap, 9) then 8
    else if d < MonthStart(leap, 10) then 9
    else if d < MonthStart(leap, 11) then 10
    else 11
  }

  datatype Fields = Fields(year: int, month: int, date: int, hour: int, minute: int, second: int, ms: int)

  predicate ValidFields(f: Fields) {
    && 1 <= f.month <= 12 && 1 <= f.date <= 31 && 0 <= f.hour < 24 && 0 <= f.minute < 60 && 0 <= f.second < 60
    && 0 <= f.ms < 1000
  }

  /** A day number as year, month and date; the time of day is left at midnight. */
  function DateOf(day: int): (f: Fields)
    ensures ValidFields(f)
  {
    var y := YearFromDay(day);
    NextYear(y);
    var d := day - DayFromYear(y);
    var m := MonthFromDay(IsLeap(y), d);
    MonthLength(IsLeap(y), m);
    Fields(y, m + 1, d - MonthStart(IsLeap(y), m) + 1, 0, 0, 0, 0)
  }

  lemma MonthLength(leap: bool, m: int)
    requires 0 <= m < 12
    ensures MonthStart(leap, m + 1) - MonthStart(leap, m) <= 31
  {
  }

  /** The time of day, `v` milliseconds after midnight. */
  function TimeOf(v: int): (f: Fields)
    requires 0 <= v < MS_PER_DAY
    ensures ValidFields(f)
  {
    Fields(0, 1, 1, v / 3_600_000, v / 60_000 % 60, v / 1000 % 60, v % 1000)
  }

  function FieldsOf(t: int): (f: Fields)
    ensures ValidFields(f)
  {
    var d, v := DateOf(t / MS_PER_DAY), TimeOf(t % MS_PER_DAY);
    v.(year := d.year, month := d.month, date := d.date)
  }

  // Order of the fields

  predicate TimeBefore(a: Fields, b: Fields) {
    || a.hour < b.hour
    || (a.hour == b.hour && (a.minute < b.minute
        || (a.minute == b.minute && (a.second < b.second || (a.second == b.second && a.ms < b.ms)))))
  }

  predicate DateBefore(a: Fields, b: Fields) {
    || a.year < b.year
    || (a.year == b.year && (a.month < b.month || (a.month == b.month && a.date < b.date)))
  }

  predicate SameDate(a: Fields, b: Fields) {
    a.year == b.year && a.month == b.month && a.date == b.date
  }

  predicate Before(a: Fields, b: Fields) {
    DateBefore(a, b) || (SameDate(a, b) && TimeBefore(a, b))
  }

  lemma SameQuotient(v: int, q: int, k: int)
    requires k > 0 && q > 0
    ensures v / q == k * (v / q / k) + v / q % k
  {
  }

  lemma Nested(v: int)
    ensures v / 60_000 / 60 == v / 3_600_000
    ensures v / 1000 / 60 == v / 60_000
  {
  }

  lemma TimesInOrder(v: int, w: int)
    requires 0 <= v < w < MS_PER_DAY
    ensures TimeBefore(TimeOf(v), TimeOf(w))
  {
    SameQuotient(v, 60_000, 60);
    SameQuotient(w, 60_000, 60);
    SameQuotient(v, 1000, 60);
    SameQuotient(w, 1000, 60);
    Nested(v);
    Nested(w);
  }

  lemma MonthsAscend(leap: bool, m: int, n: int)
    requires 0 <= m < n <= 12
    ensures MonthStart(leap, m + 1) <= MonthStart(leap, n)
  {
  }

  lemma DatesInOrder(c: int, d: int)
    requires c < d
    ensures DateBefore(DateOf(c), DateOf(d))
  {
    hide DayFromYear, IsLeap, MonthStart;
    var y, z := YearFromDay(c), YearFromDay(d);
    if y > z {
      YearsAscend(z + 1, y);
    } else if y == z {
      NextYear(y);
      var m := MonthFromDay(IsLeap(y), c - DayFromYear(y));
      var n := MonthFromDay(IsLeap(y), d - DayFromYear(y));
      if m > n { MonthsAscend(IsLeap(y), n, m); }
    }
  }

  lemma DayOrTime(t: int, u: int)
    requires t < u
    ensures t / MS_PER_DAY < u / MS_PER_DAY || (t / MS_PER_DAY == u / MS_PER_DAY && t % MS_PER_DAY < u % MS_PER_DAY)
  {
  }

  /** Later instants have later fields, year first. */
  lemma FieldsInOrder(t: int, u: int)
    requires t < u
    ensures Before(FieldsOf(t), FieldsOf(u))
  {
    hide DateOf, TimeOf;
    DayOrTime(t, u);
    if t / MS_PER_DAY < u / MS_PER_DAY {
      DatesInOrder(t / MS_PER_DAY, u / MS_PER_DAY);
    } else {
      TimesInOrder(t % MS_PER_DAY, u % MS_PER_DAY);
    }
  }

  // The text

  function Pow10(w: nat): nat {
    if w == 0 then 1 else 10 * Pow10(w - 1)
  }

  /** `n` in exactly `w` decimal digits. */
  function Pad(n: nat, w: nat): (s: string)
    ensures |s| == w
    ensures forall c :: c in s ==> '0' <= c <= '9'
  {
    if w == 0 then "" else Pad(n / 10, w - 1) + [('0' as int + n % 10) as char]
  }

  lemma {:induction false} PadOrder(n: nat, m: nat, w: nat)
    requires n < Pow10(w) && m < Pow10(w)
    ensures TextOrder.Less(Pad(n, w), Pad(m, w)) <==> n < m
    ensures Pad(n, w) == Pad(m, w) <==> n == m
  {
    if w > 0 {
      PadOrder(n / 10, m / 10, w - 1);
      var a, b := [('0' as int + n % 10) as char], [('0' as int + m % 10) as char];
      TextOrder.LessConcat(Pad(n / 10, w - 1), a, Pad(m / 10, w - 1), b);
      assert a[1..] == "" && b[1..] == "";
      assert Pad(n, w)[..w - 1] == Pad(n / 10, w - 1) && Pad(m, w)[..w - 1] == Pad(m / 10, w - 1);
      assert Pad(n, w)[w - 1] == a[0] && Pad(m, w)[w - 1] == b[0];
    }
  }

  /** A fixed-width field decides; on a tie the rest does. */
  lemma FieldThen(n: nat, m: nat, w: nat, rest: string, rest': string)
    requires n < Pow10(w) && m < Pow10(w)
    ensures TextOrder.Less(Pad(n, w) + rest, Pad(m, w) + rest') <==> n < m || (n == m && TextOrder.Less(rest, rest'))
  {
    PadOrder(n, m, w);
    TextOrder.LessConcat(Pad(n, w), rest, Pad(m, w), rest');
  }

  lemma SeparatorThen(c: char, rest: string, rest': string)
    ensures TextOrder.Less([c] + rest, [c] + rest') <==> TextOrder.Less(rest, rest')
  {
    assert ([c] + rest)[1..] == rest && ([c] + rest')[1..] == rest';
  }

  function TimeText(f: Fields): string
    requires ValidFields(f)
  {
    Pad(f.hour, 2) + ([':'] + (Pad(f.minute, 2) + ([':'] + (Pad(f.second, 2) + (['.'] + (Pad(f.ms, 3) + ['Z']))))))
  }

  function DateText(f: Fields): string
    requires ValidFields(f)
  {
    ['-'] + (Pad(f.month, 2) + (['-'] + (Pad(f.date, 2) + (['T'] + TimeText(f)))))
  }

  /** Four digits for the years 0 to 9999, a sign and six digits outside. */
  function YearText(y: int): string {
    if 0 <= y <= 9999 then Pad(y, 4) else if y > 9999 then ['+'] + Pad(y, 6) else ['-'] + Pad(-y, 6)
  }

  function Iso(t: int): string {
    YearText(FieldsOf(t).year) + DateText(FieldsOf(t))
  }

  lemma TimeTextOrder(f: Fields, g: Fields)
    requires ValidFields(f) && ValidFields(g)
    ensures TextOrder.Less(TimeText(f), TimeText(g)) <==> TimeBefore(f, g)
  {
    assert Pow10(1) == 10 && Pow10(2) == 100 && Pow10(3) == 1000;
    var f3, g3 := Pad(f.ms, 3) + ['Z'], Pad(g.ms, 3) + ['Z'];
    FieldThen(f.ms, g.ms, 3, ['Z'], ['Z']);
    TextOrder.Irreflexive(['Z']);
    SeparatorThen('.', f3, g3);
    FieldThen(f.second, g.second, 2, ['.'] + f3, ['.'] + g3);
    var f2, g2 := Pad(f.second, 2) + (['.'] + f3), Pad(g.second, 2) + (['.'] + g3);
    SeparatorThen(':', f2, g2);
    FieldThen(f.minute, g.minute, 2, [':'] + f2, [':'] + g2);
    var f1, g1 := Pad(f.minute, 2) + ([':'] + f2), Pad(g.minute, 2) + ([':'] + g2);
    SeparatorThen(':', f1, g1);
    FieldThen(f.hour, g.hour, 2, [':'] + f1, [':'] + g1);
  }

  lemma DateTextOrder(f: Fields, g: Fields)
    requires ValidFields(f) && ValidFields(g) && f.year == g.year
    ensures TextOrder.Less(DateText(f), DateText(g)) <==> Before(f, g)
  {
    assert Pow10(1) == 10 && Pow10(2) == 100;
    TimeTextOrder(f, g);
    SeparatorThen('T', TimeText(f), TimeText(g));
    FieldThen(f.date, g.date, 2, ['T'] + TimeText(f), ['T'] + TimeText(g));
    var f2, g2 := Pad(f.date, 2) + (['T'] + TimeText(f)), Pad(g.date, 2) + (['T'] + TimeText(g));
    SeparatorThen('-', f2, g2);
    FieldThen(f.month, g.month, 2, ['-'] + f2, ['-'] + g2);
    var f1, g1 := Pad(f.month, 2) + (['-'] + f2), Pad(g.month, 2) + (['-'] + g2);
    SeparatorThen('-', f1, g1);
  }

  predicate InFourDigitYears(t: int) {
    0 <= FieldsOf(t).year <= 9999
  }

  lemma YearEdges()
    ensures DayFromYear(0) == -719_528 && DayFromYear(10_000) == 2_932_897
  {
  }

  /** The years 0 to 9999 as a range of instants. */
  lemma FourDigitYearsAre(t: int)
    ensures 0 <= FieldsOf(t).year <==> -62_167_219_200_000 <= t
    ensures FieldsOf(t).year <= 9999 <==> t < 253_402_300_800_000
  {
    hide DayFromYear, IsLeap, MonthStart, MonthFromDay;
    YearEdges();
    var y := YearFromDay(t / MS_PER_DAY);
    if y < 0 { YearsAscend(y + 1, 0); } else { YearsAscend(0, y); }
    if y < 10_000 { YearsAscend(y + 1, 10_000); } else { YearsAscend(10_000, y); }
  }

  /** In the years 0 to 9999 the order of the texts is the order of the instants. */
  lemma IsoOrder(t: int, u: int)
    requires InFourDigitYears(t) && InFourDigitYears(u)
    ensures TextOrder.Less(Iso(t), Iso(u)) <==> t < u
  {
    hide FieldsOf, Iso;
    IsoOrderFields(t, u);
    if t < u {
      FieldsInOrder(t, u);
    } else if u < t {
      FieldsInOrder(u, t);
    }
  }

  lemma IsoOrderFields(t: int, u: int)
    requires InFourDigitYears(t) && InFourDigitYears(u)
    ensures TextOrder.Less(Iso(t), Iso(u)) <==> Before(FieldsOf(t), FieldsOf(u))
  {
    var f, g := FieldsOf(t), FieldsOf(u);
    assert Pow10(1) == 10 && Pow10(2) == 100 && Pow10(3) == 1000 && Pow10(4) == 10000;
    FieldThen(f.year, g.year, 4, DateText(f), DateText(g));
    if f.year == g.year { DateTextOrder(f, g); }
  }

  /** A signed year sorts before every four-digit year, whichever the sign. */
  lemma SignedYearSortsFirst(t: int, u: int)
    requires !InFourDigitYears(t) && InFourDigitYears(u)
    ensures TextOrder.Less(Iso(t), Iso(u))
  {
    var y, z := FieldsOf(t).year, FieldsOf(u).year;
    assert YearText(z)[0] in YearText(z);
    assert Iso(t)[0] == YearText(y)[0] && Iso(u)[0] == YearText(z)[0];
  }

  /** `expires_at > now` as the database decides it: by text on SQLite, by instant elsewhere. */
  predicate SqlAfter(text: bool, expiresAt: int, now: int) {
    if text then TextOrder.Less(Iso(now), Iso(expiresAt)) else now < expiresAt
  }

  /** `expires_at <= now`, the pruner's test. */
  predicate SqlNotAfter(text: bool, expiresAt: int, now: int) {
    if text then TextOrder.Less(Iso(expiresAt), Iso(now)) || Iso(expiresAt) == Iso(now) else expiresAt <= now
  }

  lemma YearsFollowDays(t: int, u: int)
    requires t <= u
    ensures FieldsOf(t).year <= FieldsOf(u).year
  {
    hide FieldsOf;
    if t < u { FieldsInOrder(t, u); }
  }

  /**
   * With the clock in the years 0 to 9999, both text tests select exactly the rows the numeric tests would,
   * if and only if the expiry is not past the year 9999.
   */
  lemma TextTestsAreNumeric(expiresAt: int, now: int)
    requires InFourDigitYears(now)
    ensures (SqlAfter(true, expiresAt, now) <==> now < expiresAt) <==> FieldsOf(expiresAt).year <= 9999
    ensures (SqlNotAfter(true, expiresAt, now) <==> expiresAt <= now) <==> FieldsOf(expiresAt).year <= 9999
  {
    hide FieldsOf, Iso, TextOrder.Less;
    TextOrder.Irreflexive(Iso(now));
    TextOrder.Total(Iso(now), Iso(expiresAt));
    if InFourDigitYears(expiresAt) {
      IsoOrder(now, expiresAt);
      IsoOrder(expiresAt, now);
    } else {
      SignedYearSortsFirst(expiresAt, now);
      if TextOrder.Less(Iso(now), Iso(expiresAt)) { TextOrder.Transitive(Iso(now), Iso(expiresAt), Iso(now)); }
      if expiresAt <= now { YearsFollowDays(expiresAt, now); } else { YearsFollowDays(now, expiresAt); }
    }
  }
}
