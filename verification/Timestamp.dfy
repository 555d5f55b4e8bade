/** The `ts` of an alert event: `iso8601_utc` (src/alerts.rs:178-203), against RFC 3339 section 5.6. */
module Timestamp {
  import opened Wrappers
  import opened Calendar
  import opened Strings

  /** Seconds since 1970-01-01T00:00:00Z at 10000-01-01T00:00:00Z. */
  const YEAR_10000: int := 253402300800

  // ---------------------------------------------------------------------
  // Decimal formatting
  // ---------------------------------------------------------------------

  function Digit(n: int): char
    requires 0 <= n <= 9
  {
    (n + '0' as int) as char
  }

  function Decimal(n: nat): string {
    if n < 10 then [Digit(n)] else Decimal(n / 10) + [Digit(n % 10)]
  }

  function Zeros(n: nat): string {
    seq(n, _ => '0')
  }

  /** `{n:0w}`: at least `w` columns, filled with zeros on the left. */
  function Padded(n: nat, w: nat): string {
    var d := Decimal(n);
    Zeros(if |d| < w then w - |d| else 0) + d
  }

  /** Exactly `w` digits. */
  function Fixed(n: nat, w: nat): string {
    if w == 0 then "" else Fixed(n / 10, w - 1) + [Digit(n % 10)]
  }

  function Power10(w: nat): nat {
    if w == 0 then 1 else 10 * Power10(w - 1)
  }

  lemma {:induction false} FixedZero(w: nat)
    ensures Fixed(0, w) == Zeros(w)
  {
    if w > 0 { FixedZero(w - 1); }
  }

  lemma {:induction false} FixedLength(n: nat, w: nat)
    ensures |Fixed(n, w)| == w
  {
    if w > 0 { FixedLength(n / 10, w - 1); }
  }

  /** A number below 10^w is printed with exactly `w` digits. */
  lemma {:induction false} PaddedIsFixed(n: nat, w: nat)
    requires w > 0 && n < Power10(w)
    ensures Padded(n, w) == Fixed(n, w) && |Decimal(n)| <= w
    decreases w
  {
    if n < 10 {
      FixedZero(w - 1);
    } else {
      PaddedIsFixed(n / 10, w - 1);
    }
  }

  lemma {:induction false} DecimalLong(n: nat, w: nat)
    requires n >= Power10(w)
    ensures |Decimal(n)| > w
  {
    if w > 0 { DecimalLong(n / 10, w - 1); }
  }

  /** Numbers of equal width compare as their digits do. */
  lemma {:induction false} FixedOrder(a: nat, b: nat, w: nat)
    requires a < b < Power10(w)
    ensures Less(Fixed(a, w), Fixed(b, w))
  {
    FixedLength(a / 10, w - 1);
    FixedLength(b / 10, w - 1);
    if a / 10 < b / 10 {
      FixedOrder(a / 10, b / 10, w - 1);
      LessExtend(Fixed(a / 10, w - 1), Fixed(b / 10, w - 1), [Digit(a % 10)], [Digit(b % 10)]);
    } else {
      assert Less([Digit(a % 10)], [Digit(b % 10)]);
      LessAfterPrefix(Fixed(a / 10, w - 1), [Digit(a % 10)], [Digit(b % 10)]);
    }
  }

  // ---------------------------------------------------------------------
  // The code
  // ---------------------------------------------------------------------

  function Render(d: Date, hh: nat, mm: nat, ss: nat): string
    requires d.year >= 0 && d.month >= 0 && d.day >= 0
  {
    Padded(d.year, 4) + "-" + Padded(d.month, 2) + "-" + Padded(d.day, 2) + "T"
    + Padded(hh, 2) + ":" + Padded(mm, 2) + ":" + Padded(ss, 2) + "Z"
  }

  /** `t` is in whole seconds from the epoch; an instant before it prints as the epoch. */
  function Seconds(t: int): nat {
    if t < 0 then 0 else t
  }

  lemma CivilIsPrintable(t: int)
    ensures ValidDate(CivilFromDays(Seconds(t) / 86400)) && CivilFromDays(Seconds(t) / 86400).year >= 1970
  {
    DayNumberOfCivil(Seconds(t) / 86400);
  }

  function Iso8601(t: int): string {
    var secs := Seconds(t);
    var tod := secs % 86400;
    CivilIsPrintable(t);
    Render(CivilFromDays(secs / 86400), tod / 3600, tod % 3600 / 60, tod % 60)
  }

  // ---------------------------------------------------------------------
  // An independent reader of the `date-time` grammar, in UTC and whole seconds
  // ---------------------------------------------------------------------

  predicate IsDigits(s: string) {
    forall i :: 0 <= i < |s| ==> '0' <= s[i] <= '9'
  }

  function Number(s: string): nat
    requires IsDigits(s)
  {
    if s == "" then 0
    else 10 * Number(s[..|s| - 1]) + (s[|s| - 1] as int - '0' as int)
  }

  predicate Layout(s: string) {
    && |s| == 20
    && s[4] == '-' && s[7] == '-' && s[10] == 'T' && s[13] == ':' && s[16] == ':' && s[19] == 'Z'
    && IsDigits(s[0..4]) && IsDigits(s[5..7]) && IsDigits(s[8..10])
    && IsDigits(s[11..13]) && IsDigits(s[14..16]) && IsDigits(s[17..19])
  }

  function DateOf(s: string): Date
    requires Layout(s)
  {
    Date(Number(s[0..4]), Number(s[5..7]), Number(s[8..10]))
  }

  /** `date-time` with `Z` as its offset and no fraction, whose fields are in range and not before 1970. */
  predicate IsDateTime(s: string) {
    && Layout(s)
    && ValidDate(DateOf(s)) && DateOf(s).year >= 1970
    && Number(s[11..13]) <= 23 && Number(s[14..16]) <= 59 && Number(s[17..19]) <= 59
  }

  function Parse(s: string): Option<int> {
    if IsDateTime(s) then
      Some(86400 * DayNumber(DateOf(s)) + 3600 * Number(s[11..13]) + 60 * Number(s[14..16]) + Number(s[17..19]))
    else None
  }

  lemma {:induction false} NumberOfFixed(n: nat, w: nat)
    requires n < Power10(w)
    ensures IsDigits(Fixed(n, w)) && Number(Fixed(n, w)) == n
  {
    if w > 0 {
      NumberOfFixed(n / 10, w - 1);
      var s := Fixed(n, w);
      assert s[..|s| - 1] == Fixed(n / 10, w - 1);
    }
  }

  lemma FieldRoundTrip(n: nat, w: nat)
    requires w > 0 && n < Power10(w)
    ensures Padded(n, w) == Fixed(n, w) && |Fixed(n, w)| == w
    ensures IsDigits(Fixed(n, w)) && Number(Fixed(n, w)) == n
  {
    PaddedIsFixed(n, w);
    FixedLength(n, w);
    NumberOfFixed(n, w);
  }

  lemma Powers()
    ensures Power10(2) == 100 && Power10(4) == 10000
  {
    assert Power10(1) == 10 && Power10(3) == 1000;
  }

  lemma Slices(y: string, m: string, d: string, hh: string, mm: string, ss: string)
    requires |y| == 4 && |m| == |d| == |hh| == |mm| == |ss| == 2
    ensures var s := y + "-" + m + "-" + d + "T" + hh + ":" + mm + ":" + ss + "Z";
            && |s| == 20 && s[0..4] == y && s[5..7] == m && s[8..10] == d
            && s[11..13] == hh && s[14..16] == mm && s[17..19] == ss
            && s[4] == '-' && s[7] == '-' && s[10] == 'T' && s[13] == ':' && s[16] == ':' && s[19] == 'Z'
  {
  }

  predicate Pieces(s: string, y: string, m: string, d: string, hh: string, mm: string, ss: string) {
    && |s| == 20 && s[0..4] == y && s[5..7] == m && s[8..10] == d
    && s[11..13] == hh && s[14..16] == mm && s[17..19] == ss
    && s[4] == '-' && s[7] == '-' && s[10] == 'T' && s[13] == ':' && s[16] == ':' && s[19] == 'Z'
    && IsDigits(y) && IsDigits(m) && IsDigits(d) && IsDigits(hh) && IsDigits(mm) && IsDigits(ss)
  }

  lemma ReadPieces(s: string, y: string, m: string, d: string, hh: string, mm: string, ss: string)
    requires Pieces(s, y, m, d, hh, mm, ss)
    ensures Layout(s) && DateOf(s) == Date(Number(y), Number(m), Number(d))
  {
  }

  lemma ParseInRange(s: string, d: Date, hh: nat, mm: nat, ss: nat)
    requires Layout(s) && DateOf(s) == d && ValidDate(d) && d.year >= 1970
    requires Number(s[11..13]) == hh <= 23 && Number(s[14..16]) == mm <= 59 && Number(s[17..19]) == ss <= 59
    ensures Parse(s) == Some(86400 * DayNumber(d) + 3600 * hh + 60 * mm + ss)
  {
    assert IsDateTime(s);
  }

  lemma ParseOfRender(d: Date, hh: nat, mm: nat, ss: nat)
    requires ValidDate(d) && 1970 <= d.year <= 9999 && hh <= 23 && mm <= 59 && ss <= 59
    ensures Parse(Render(d, hh, mm, ss)) == Some(86400 * DayNumber(d) + 3600 * hh + 60 * mm + ss)
  {
    FieldsRoundTrip(d, hh, mm, ss);
    Slices(Fixed(d.year, 4), Fixed(d.month, 2), Fixed(d.day, 2), Fixed(hh, 2), Fixed(mm, 2), Fixed(ss, 2));
    ReadPieces(Render(d, hh, mm, ss), Fixed(d.year, 4), Fixed(d.month, 2), Fixed(d.day, 2),
               Fixed(hh, 2), Fixed(mm, 2), Fixed(ss, 2));
    ParseInRange(Render(d, hh, mm, ss), d, hh, mm, ss);
  }

  lemma FieldsRoundTrip(d: Date, hh: nat, mm: nat, ss: nat)
    requires ValidDate(d) && 1970 <= d.year <= 9999 && hh <= 23 && mm <= 59 && ss <= 59
    ensures TwoDigits(d.month) && TwoDigits(d.day) && TwoDigits(hh) && TwoDigits(mm) && TwoDigits(ss)
    ensures Padded(d.year, 4) == Fixed(d.year, 4) && |Fixed(d.year, 4)| == 4
    ensures IsDigits(Fixed(d.year, 4)) && Number(Fixed(d.year, 4)) == d.year
  {
    Powers();
    FieldRoundTrip(d.year, 4);
    FieldRoundTrip(d.month, 2);
    FieldRoundTrip(d.day, 2);
    FieldRoundTrip(hh, 2);
    FieldRoundTrip(mm, 2);
    FieldRoundTrip(ss, 2);
  }

  predicate TwoDigits(n: nat) {
    && Padded(n, 2) == Fixed(n, 2) && |Fixed(n, 2)| == 2
    && IsDigits(Fixed(n, 2)) && Number(Fixed(n, 2)) == n
  }

  // ---------------------------------------------------------------------
  // Main results
  // ---------------------------------------------------------------------

  /** The year stays at four digits exactly up to the end of year 9999. */
  lemma FourDigitYears(days: nat)
    ensures ValidDate(CivilFromDays(days)) && CivilFromDays(days).year >= 1970
    ensures CivilFromDays(days).year <= 9999 <==> days < YEAR_10000 / 86400
  {
    var limit := Date(10000, 1, 1);
    DayNumberOfCivil(days);
    YearSum(10000);
    assert DayNumber(limit) == YEAR_10000 / 86400;
    DayNumberOrder(CivilFromDays(days), limit);
  }

  lemma ClockFields(tod: nat)
    requires tod < 86400
    ensures tod / 3600 <= 23 && tod % 3600 / 60 <= 59 && tod % 60 <= 59
    ensures 3600 * (tod / 3600) + 60 * (tod % 3600 / 60) + tod % 60 == tod
  {
    var h, r := tod / 3600, tod % 3600;
    var m, s := r / 60, r % 60;
    assert tod == 3600 * h + r && r == 60 * m + s;
    assert tod == 60 * (60 * h + m) + s;
    assert tod % 60 == s;
  }

  lemma RenderLength(d: Date, hh: nat, mm: nat, ss: nat)
    requires ValidDate(d) && d.year >= 1970 && hh <= 23 && mm <= 59 && ss <= 59
    ensures |Render(d, hh, mm, ss)| == |Padded(d.year, 4)| + 16
  {
    Powers();
    FieldRoundTrip(d.month, 2);
    FieldRoundTrip(d.day, 2);
    FieldRoundTrip(hh, 2);
    FieldRoundTrip(mm, 2);
    FieldRoundTrip(ss, 2);
  }

  /** An instant is printed as 20 characters exactly up to the end of year 9999. */
  lemma Length(t: int)
    ensures |Iso8601(t)| == 20 <==> t < YEAR_10000
  {
    var secs := Seconds(t);
    var d, tod := CivilFromDays(secs / 86400), secs % 86400;
    FourDigitYears(secs / 86400);
    ClockFields(tod);
    RenderLength(d, tod / 3600, tod % 3600 / 60, tod % 60);
    Powers();
    if d.year <= 9999 { FieldRoundTrip(d.year, 4); } else { DecimalLong(d.year, 4); }
  }

  lemma EarlyRoundTrip(secs: nat)
    requires secs < YEAR_10000
    ensures Parse(Iso8601(secs)) == Some(secs)
  {
    var days, tod := secs / 86400, secs % 86400;
    FourDigitYears(days);
    DayNumberOfCivil(days);
    ClockFields(tod);
    ParseOfRender(CivilFromDays(days), tod / 3600, tod % 3600 / 60, tod % 60);
  }

  /** An instant before the epoch prints as the epoch. */
  lemma PrintsAsEpoch(t: int)
    requires t <= 0
    ensures Iso8601(t) == Iso8601(0)
  {
    assert Seconds(t) == Seconds(0);
  }

  /**
   * Reading the text back gives nothing from year 10000 on, the epoch for an earlier instant, and so the
   * instant itself, to the second, exactly from the epoch to the end of year 9999.
   */
  lemma RoundTrip(t: int)
    ensures Parse(Iso8601(t)) == (if t < YEAR_10000 then Some(Seconds(t)) else None)
    ensures Parse(Iso8601(t)) == Some(t) <==> 0 <= t < YEAR_10000
  {
    if t < YEAR_10000 {
      EarlyRoundTrip(Seconds(t));
      assert Iso8601(t) == Iso8601(Seconds(t));
    } else {
      Length(t);
    }
  }

  // ---------------------------------------------------------------------
  // Order: fixed-width columns compare as tuples of numbers
  // ---------------------------------------------------------------------

  datatype Column = Column(value: nat, width: nat, mark: char)

  function Columns(cs: seq<Column>): string {
    if cs == [] then "" else Fixed(cs[0].value, cs[0].width) + [cs[0].mark] + Columns(cs[1..])
  }

  predicate SameShape(a: seq<Column>, b: seq<Column>) {
    && |a| == |b|
    && forall i :: 0 <= i < |a| ==> a[i].width == b[i].width && a[i].mark == b[i].mark
                                    && a[i].value < Power10(a[i].width) && b[i].value < Power10(b[i].width)
  }

  predicate TupleLess(a: seq<Column>, b: seq<Column>)
    requires |a| == |b|
  {
    a != [] && (a[0].value < b[0].value || (a[0].value == b[0].value && TupleLess(a[1..], b[1..])))
  }

  lemma {:induction false} ColumnsOrder(a: seq<Column>, b: seq<Column>)
    requires SameShape(a, b) && TupleLess(a, b)
    ensures Less(Columns(a), Columns(b))
  {
    var w, m := a[0].width, [a[0].mark];
    FixedLength(a[0].value, w);
    FixedLength(b[0].value, w);
    if a[0].value < b[0].value {
      FixedOrder(a[0].value, b[0].value, w);
      LessExtend(Fixed(a[0].value, w), Fixed(b[0].value, w), m + Columns(a[1..]), m + Columns(b[1..]));
      assert Columns(a) == Fixed(a[0].value, w) + (m + Columns(a[1..]));
      assert Columns(b) == Fixed(b[0].value, w) + (m + Columns(b[1..]));
    } else {
      ColumnsOrder(a[1..], b[1..]);
      LessAfterPrefix(Fixed(a[0].value, w) + m, Columns(a[1..]), Columns(b[1..]));
    }
  }

  function Layout6(d: Date, hh: nat, mm: nat, ss: nat): seq<Column>
    requires ValidDate(d) && d.year >= 0
  {
    [Column(d.year, 4, '-'), Column(d.month, 2, '-'), Column(d.day, 2, 'T'),
     Column(hh, 2, ':'), Column(mm, 2, ':'), Column(ss, 2, 'Z')]
  }

  function Cell(c: Column): string {
    Fixed(c.value, c.width) + [c.mark]
  }

  lemma ColumnsCons(cs: seq<Column>, i: nat)
    requires i < |cs|
    ensures Columns(cs[i..]) == Cell(cs[i]) + Columns(cs[i + 1..])
  {
    assert cs[i..][1..] == cs[i + 1..];
  }

  lemma Associate(a: string, b: string, c: string, d: string, e: string, f: string)
    ensures a + (b + (c + (d + (e + f)))) == a + b + c + d + e + f
  {
  }

  lemma ColumnsOfSix(cs: seq<Column>)
    requires |cs| == 6
    ensures Columns(cs) == Cell(cs[0]) + Cell(cs[1]) + Cell(cs[2]) + Cell(cs[3]) + Cell(cs[4]) + Cell(cs[5])
  {
    calc {
      Columns(cs);
    == { assert cs[0..] == cs; ColumnsCons(cs, 0); }
      Cell(cs[0]) + Columns(cs[1..]);
    == { ColumnsCons(cs, 1); }
      Cell(cs[0]) + (Cell(cs[1]) + Columns(cs[2..]));
    == { ColumnsCons(cs, 2); }
      Cell(cs[0]) + (Cell(cs[1]) + (Cell(cs[2]) + Columns(cs[3..])));
    == { ColumnsCons(cs, 3); }
      Cell(cs[0]) + (Cell(cs[1]) + (Cell(cs[2]) + (Cell(cs[3]) + Columns(cs[4..]))));
    == { ColumnsCons(cs, 4); ColumnsCons(cs, 5); assert Columns(cs[6..]) == ""; }
      Cell(cs[0]) + (Cell(cs[1]) + (Cell(cs[2]) + (Cell(cs[3]) + (Cell(cs[4]) + Cell(cs[5])))));
    == { Associate(Cell(cs[0]), Cell(cs[1]), Cell(cs[2]), Cell(cs[3]), Cell(cs[4]), Cell(cs[5])); }
      Cell(cs[0]) + Cell(cs[1]) + Cell(cs[2]) + Cell(cs[3]) + Cell(cs[4]) + Cell(cs[5]);
    }
  }

  lemma RenderIsColumns(d: Date, hh: nat, mm: nat, ss: nat)
    requires ValidDate(d) && 1970 <= d.year <= 9999 && hh <= 23 && mm <= 59 && ss <= 59
    ensures Render(d, hh, mm, ss) == Columns(Layout6(d, hh, mm, ss))
  {
    FieldsRoundTrip(d, hh, mm, ss);
    ColumnsOfSix(Layout6(d, hh, mm, ss));
  }

  lemma RenderOrder(d: Date, hh: nat, mm: nat, ss: nat, d': Date, hh': nat, mm': nat, ss': nat)
    requires ValidDate(d) && 1970 <= d.year <= 9999 && hh <= 23 && mm <= 59 && ss <= 59
    requires ValidDate(d') && 1970 <= d'.year <= 9999 && hh' <= 23 && mm' <= 59 && ss' <= 59
    requires Before(d, d') || (d == d' && 3600 * hh + 60 * mm + ss < 3600 * hh' + 60 * mm' + ss')
    ensures Less(Render(d, hh, mm, ss), Render(d', hh', mm', ss'))
  {
    RenderIsColumns(d, hh, mm, ss);
    RenderIsColumns(d', hh', mm', ss');
    var a, b := Layout6(d, hh, mm, ss), Layout6(d', hh', mm', ss');
    Powers();
    var k := if d.year != d'.year then 0 else if d.month != d'.month then 1 else if d.day != d'.day then 2
             else if hh != hh' then 3 else if mm != mm' then 4 else 5;
    TupleLessAt(a, b, k);
    ColumnsOrder(a, b);
  }

  lemma {:induction false} TupleLessAt(a: seq<Column>, b: seq<Column>, k: nat)
    requires k < |a| == |b| && a[k].value < b[k].value
    requires forall i :: 0 <= i < k ==> a[i].value == b[i].value
    ensures TupleLess(a, b)
  {
    if k > 0 { TupleLessAt(a[1..], b[1..], k - 1); }
  }

  /**
   * Up to the end of year 9999 the texts order as the seconds since the epoch do: as the instants, except
   * for two different ones neither of which is after the epoch.
   */
  lemma ChronologicalOrder(t: int, u: int)
    requires t < YEAR_10000 && u < YEAR_10000
    ensures Less(Iso8601(t), Iso8601(u)) <==> Seconds(t) < Seconds(u)
    ensures InOrder(t, u) <==> !(t < u <= 0)
  {
    if Seconds(t) < Seconds(u) {
      EarlierIsLess(Seconds(t), Seconds(u));
    } else if Seconds(t) == Seconds(u) {
      LessIrreflexive(Iso8601(t));
    } else {
      EarlierIsLess(Seconds(u), Seconds(t));
      LessAsymmetric(Iso8601(u), Iso8601(t));
    }
  }

  /** The text of `t` is less than that of `u` exactly when `t` is the earlier instant. */
  predicate InOrder(t: int, u: int) {
    Less(Iso8601(t), Iso8601(u)) <==> t < u
  }

  lemma EarlierIsLess(s: nat, u: nat)
    requires s < u < YEAR_10000
    ensures Less(Iso8601(s), Iso8601(u))
  {
    var d, d' := CivilFromDays(s / 86400), CivilFromDays(u / 86400);
    FourDigitYears(s / 86400);
    FourDigitYears(u / 86400);
    DayNumberOfCivil(s / 86400);
    DayNumberOfCivil(u / 86400);
    DayNumberOrder(d, d');
    var tod, tod' := s % 86400, u % 86400;
    assert s / 86400 < u / 86400 || (s / 86400 == u / 86400 && tod < tod');
    ClockFields(tod);
    ClockFields(tod');
    RenderOrder(d, tod / 3600, tod % 3600 / 60, tod % 60, d', tod' / 3600, tod' % 3600 / 60, tod' % 60);
  }

  lemma PrintedDate(t: nat, d: Date)
    requires d.year >= 1970 && ValidDate(d) && t / 86400 == DayNumber(d)
    ensures Iso8601(t) == Render(d, t % 86400 / 3600, t % 86400 % 3600 / 60, t % 86400 % 60)
  {
    CivilOfDayNumber(d);
  }

  /** At the first instant of year 10000 the order of the texts breaks. */
  lemma OrderBreaksAtYear10000()
    ensures Less(Iso8601(YEAR_10000), Iso8601(YEAR_10000 - 1))
  {
    var last, first := YEAR_10000 - 1, YEAR_10000;
    LastDays();
    PrintedDate(first, Date(10000, 1, 1));
    PrintedDate(last, Date(9999, 12, 31));
    LeadingDigits();
  }

  /** The texts of two instants compare as their seconds since the epoch do. */
  predicate InClampedOrder(t: int, u: int) {
    Less(Iso8601(t), Iso8601(u)) <==> Seconds(t) < Seconds(u)
  }

  /**
   * All texts up to an instant sort by time, counted from the epoch, exactly when that instant is before
   * year 10000; and so do the texts of the instants from the epoch up to it.
   */
  lemma OrderHoldsExactly(bound: int)
    ensures (forall t: int, u: int :: t <= bound && u <= bound ==> InClampedOrder(t, u)) <==> bound < YEAR_10000
    ensures (forall t: int, u: int :: 0 <= t <= bound && 0 <= u <= bound ==> InOrder(t, u)) <==> bound < YEAR_10000
  {
    if bound < YEAR_10000 {
      forall t: int, u: int | t <= bound && u <= bound
        ensures InClampedOrder(t, u) && (0 <= t && 0 <= u ==> InOrder(t, u))
      {
        ChronologicalOrder(t, u);
      }
    } else {
      OrderBreaksAtYear10000();
      LessAsymmetric(Iso8601(YEAR_10000), Iso8601(YEAR_10000 - 1));
      assert !InClampedOrder(YEAR_10000 - 1, YEAR_10000) && !InOrder(YEAR_10000 - 1, YEAR_10000);
    }
  }

  lemma LastDays()
    ensures DayNumber(Date(10000, 1, 1)) == 2932897 && DayNumber(Date(9999, 12, 31)) == 2932896
  {
    YearSum(10000);
    DayNumberOfTomorrow(Date(9999, 12, 31));
  }

  lemma LeadingDigits()
    ensures Padded(10000, 4)[0] == '1' && Padded(9999, 4)[0] == '9'
  {
    assert Decimal(1) == "1" && Decimal(10) == "10" && Decimal(100) == "100";
    assert Decimal(1000) == "1000" && Decimal(10000) == "10000";
    assert Decimal(9) == "9" && Decimal(99) == "99" && Decimal(999) == "999" && Decimal(9999) == "9999";
  }
}
