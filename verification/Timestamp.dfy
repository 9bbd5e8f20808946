/** The log's timestamp text and the credential parser that reads such text back. The printed form
    is the date-time of section 5.6 of RFC 3339, in UTC with milliseconds. */
module Timestamp {
  import opened Options
  import opened Lex
  import opened Calendar

  const PLUS: Byte := 43
  const MINUS: Byte := 45
  const DOT: Byte := 46
  const COLON: Byte := 58
  const LETTER_T: Byte := 84
  const LETTER_Z: Byte := 90

  // ---------- Printing ----------

  /** Decimal, zero-padded to at least `width` digits. */
  function Padded(n: nat, width: nat): Text {
    if width == 0 then (if n == 0 then [] else Decimal(n))
    else Padded(n / 10, width - 1) + [ZERO + n % 10]
  }

  /** The six leading fields with their separators, then whatever follows. */
  function Columns(y: Text, m: Text, d: Text, h: Text, mi: Text, s: Text, tail: Text): Text {
    y + ([MINUS] + (m + ([MINUS] + (d + ([LETTER_T] + (h + ([COLON] + (mi + ([COLON] + (s + tail))))))))))
  }

  lemma YearNotNegative(days: nat)
    ensures IsDate(CivilFromDays(days)) && CivilFromDays(days).year >= 1970
  {
    DaysRoundTrip(days);
    Epoch();
    if days > 0 {
      DaysOrder(0, days);
    }
  }

  function Printed(ms: nat): Text {
    PrintedAt(ms / 1000 / 86_400, ms / 1000 % 86_400, ms % 1000)
  }

  function PrintedAt(days: nat, tod: nat, millis: nat): Text {
    YearNotNegative(days);
    Layout(CivilFromDays(days), tod / 3600, tod % 3600 / 60, tod % 60, millis)
  }

  function Layout(date: Date, h: nat, mi: nat, s: nat, millis: nat): Text
    requires IsDate(date) && date.year >= 0
  {
    Columns(Padded(date.year, 4), Padded(date.month, 2), Padded(date.day, 2),
            Padded(h, 2), Padded(mi, 2), Padded(s, 2), Fraction(millis))
  }

  function Fraction(millis: nat): Text {
    [DOT] + (Padded(millis, 3) + [LETTER_Z])
  }

  // ---------- Parsing ----------

  predicate IsDigit(b: Byte) {
    ZERO <= b <= ZERO + 9
  }

  predicate AllDigits(b: Text) {
    forall i :: 0 <= i < |b| ==> IsDigit(b[i])
  }

  function Value(b: Text): nat
    requires AllDigits(b)
  {
    if b == [] then 0 else 10 * Value(b[..|b| - 1]) + (b[|b| - 1] - ZERO)
  }

  /** Rust's integer parse: an optional sign, then at least one digit, within 64 bits. */
  function ParseI64(b: Text): Option<int> {
    var sign := if b != [] && b[0] == MINUS then -1 else 1;
    var digits := if b != [] && (b[0] == MINUS || b[0] == PLUS) then b[1..] else b;
    if digits == [] || !AllDigits(digits) then None
    else if -0x8000_0000_0000_0000 <= sign * Value(digits) <= 0x7FFF_FFFF_FFFF_FFFF then Some(sign * Value(digits))
    else None
  }

  /** Fixed columns; separators, the fraction and the zone are not looked at. */
  function Iso8601ToUnix(b: Text): Option<nat> {
    if |b| < 19 then None
    else
      match (ParseI64(b[0..4]), ParseI64(b[5..7]), ParseI64(b[8..10]), ParseI64(b[11..13]), ParseI64(b[14..16]), ParseI64(b[17..19]))
      case (Some(year), Some(month), Some(day), Some(hour), Some(min), Some(sec)) =>
        ToUnix(Date(year, month, day), hour * 3600 + min * 60 + sec)
      case _ => None
  }

  function ToUnix(date: Date, timeOfDay: int): Option<nat> {
    if !(1 <= date.month <= 12) || !(1 <= date.day <= 31) then None
    else
      var secs := DaysFromCivil(date) * 86_400 + timeOfDay;
      if secs < 0 then None else Some(secs)
  }

  // ---------- Fields ----------

  function Pow10(n: nat): nat {
    if n == 0 then 1 else 10 * Pow10(n - 1)
  }

  lemma {:induction false} PaddedWidth(n: nat, width: nat)
    requires n < Pow10(width)
    ensures |Padded(n, width)| == width && AllDigits(Padded(n, width)) && Value(Padded(n, width)) == n
  {
    if width > 0 {
      PaddedWidth(n / 10, width - 1);
      var head := Padded(n / 10, width - 1);
      assert Padded(n, width)[..width - 1] == head;
    }
  }

  lemma FieldParses(n: nat, width: nat)
    requires n < Pow10(width) && 1 <= width <= 4
    ensures |Padded(n, width)| == width && ParseI64(Padded(n, width)) == Some(n)
  {
    PaddedWidth(n, width);
    assert IsDigit(Padded(n, width)[0]);
    assert Pow10(4) == 10 * Pow10(3) == 100 * Pow10(2) == 1000 * Pow10(1) == 10_000;
  }

  lemma {:induction false} PaddedOrder(n: nat, k: nat, width: nat)
    requires n < k < Pow10(width)
    ensures |Padded(n, width)| == |Padded(k, width)| && Less(Padded(n, width), Padded(k, width))
  {
    PaddedWidth(n, width);
    PaddedWidth(k, width);
    PaddedWidth(n / 10, width - 1);
    PaddedWidth(k / 10, width - 1);
    if n / 10 < k / 10 {
      PaddedOrder(n / 10, k / 10, width - 1);
      LessByField(Padded(n / 10, width - 1), Padded(k / 10, width - 1), [ZERO + n % 10], [ZERO + k % 10]);
    } else {
      LessAfterField(Padded(n / 10, width - 1), [ZERO + n % 10], [ZERO + k % 10]);
    }
  }

  lemma ColumnSlices(y: Text, m: Text, d: Text, h: Text, mi: Text, s: Text, tail: Text)
    requires |y| == 4 && |m| == |d| == |h| == |mi| == |s| == 2
    ensures var b := Columns(y, m, d, h, mi, s, tail);
      && |b| >= 19 && b[0..4] == y && b[5..7] == m && b[8..10] == d
      && b[11..13] == h && b[14..16] == mi && b[17..19] == s
  {
  }

  /** First millisecond of the year 10000. */
  const YEAR_10000: nat := 253_402_300_800_000

  lemma FirstDayOf10000()
    ensures CivilFromDays(2_932_897) == Date(10_000, 1, 1)
  {
  }

  lemma YearBelow10000(days: nat)
    ensures CivilFromDays(days).year < 10_000 <==> days < 2_932_897
  {
    FirstDayOf10000();
    DaysRoundTrip(days);
    if days < 2_932_897 {
      DaysOrder(days, 2_932_897);
    } else if days > 2_932_897 {
      DaysOrder(2_932_897, days);
    }
  }

  lemma TimeOfDay(tod: nat)
    requires tod < 86_400
    ensures tod / 3600 < 24 && tod % 3600 / 60 < 60 && tod % 60 < 60
    ensures tod / 3600 * 3600 + tod % 3600 / 60 * 60 + tod % 60 == tod
  {
  }

  lemma SmallFields(n: nat)
    ensures n < 100 ==> n < Pow10(2)
    ensures n < 1000 ==> n < Pow10(3)
    ensures n < 10_000 ==> n < Pow10(4)
  {
    assert Pow10(4) == 10 * Pow10(3) == 100 * Pow10(2) == 10_000;
  }

  lemma DateFieldsParse(date: Date)
    requires IsDate(date) && 0 <= date.year < 10_000
    ensures ParseI64(Padded(date.year, 4)) == Some(date.year) && |Padded(date.year, 4)| == 4
    ensures ParseI64(Padded(date.month, 2)) == Some(date.month) && |Padded(date.month, 2)| == 2
    ensures ParseI64(Padded(date.day, 2)) == Some(date.day) && |Padded(date.day, 2)| == 2
  {
    SmallFields(date.year);
    SmallFields(date.month);
    SmallFields(date.day);
    FieldParses(date.year, 4);
    FieldParses(date.month, 2);
    FieldParses(date.day, 2);
  }

  lemma TwoDigitsParse(n: nat)
    requires n < 100
    ensures ParseI64(Padded(n, 2)) == Some(n) && |Padded(n, 2)| == 2
  {
    SmallFields(n);
    FieldParses(n, 2);
  }

  lemma ColumnsParse(y: Text, m: Text, d: Text, h: Text, mi: Text, s: Text, tail: Text,
                     date: Date, hour: int, min: int, sec: int)
    requires |y| == 4 && |m| == |d| == |h| == |mi| == |s| == 2
    requires ParseI64(y) == Some(date.year) && ParseI64(m) == Some(date.month) && ParseI64(d) == Some(date.day)
    requires ParseI64(h) == Some(hour) && ParseI64(mi) == Some(min) && ParseI64(s) == Some(sec)
    ensures Iso8601ToUnix(Columns(y, m, d, h, mi, s, tail)) == ToUnix(date, hour * 3600 + min * 60 + sec)
  {
    ColumnSlices(y, m, d, h, mi, s, tail);
  }

  /** A date of a four-digit year and a time of day, laid out and read back. */
  lemma LayoutParses(date: Date, h: nat, mi: nat, s: nat, millis: nat)
    requires IsDate(date) && 0 <= date.year < 10_000 && h < 100 && mi < 100 && s < 100
    ensures Iso8601ToUnix(Layout(date, h, mi, s, millis)) == ToUnix(date, h * 3600 + mi * 60 + s)
  {
    DateFieldsParse(date);
    TwoDigitsParse(h);
    TwoDigitsParse(mi);
    TwoDigitsParse(s);
    ColumnsParse(Padded(date.year, 4), Padded(date.month, 2), Padded(date.day, 2),
                 Padded(h, 2), Padded(mi, 2), Padded(s, 2), Fraction(millis), date, h, mi, s);
  }

  lemma ToUnixOfDays(date: Date, days: nat, tod: nat)
    requires IsDate(date) && DaysFromCivil(date) == days
    ensures ToUnix(date, tod) == Some(days * 86_400 + tod)
  {
  }

  lemma PrintedAtParses(days: nat, tod: nat, millis: nat, secs: nat)
    requires days < 2_932_897 && tod < 86_400 && secs == days * 86_400 + tod
    ensures Iso8601ToUnix(PrintedAt(days, tod, millis)) == Some(secs)
  {
    hide CivilFromDays, DaysFromCivil, Layout, Iso8601ToUnix, IsDate;
    YearNotNegative(days);
    YearBelow10000(days);
    DaysRoundTrip(days);
    DatedTextParses(CivilFromDays(days), days, tod, millis);
  }

  lemma DatedTextParses(date: Date, days: nat, tod: nat, millis: nat)
    requires IsDate(date) && 0 <= date.year < 10_000 && DaysFromCivil(date) == days && tod < 86_400
    ensures Iso8601ToUnix(Layout(date, tod / 3600, tod % 3600 / 60, tod % 60, millis)) == Some(days * 86_400 + tod)
  {
    var h, mi, s := tod / 3600, tod % 3600 / 60, tod % 60;
    TimeOfDay(tod);
    ToUnixOfDays(date, days, tod);
    LayoutParses(date, h, mi, s, millis);
  }

  lemma SplitInstant(ms: nat, secs: nat, days: nat, tod: nat)
    requires secs == ms / 1000 && days == secs / 86_400 && tod == secs % 86_400
    ensures secs == days * 86_400 + tod && tod < 86_400
    ensures ms < YEAR_10000 <==> days < 2_932_897
  {
  }

  /** Up to the end of the year 9999 the printed instant reads back as its whole seconds. */
  lemma PrintedParses(ms: nat)
    requires ms < YEAR_10000
    ensures Iso8601ToUnix(Printed(ms)) == Some(ms / 1000)
  {
    var secs := ms / 1000;
    var days, tod := secs / 86_400, secs % 86_400;
    SplitInstant(ms, secs, days, tod);
    PrintedAtParses(days, tod, ms % 1000, secs);
  }

  // ---------- The printed form ----------

  /** The date-time of section 5.6 of RFC 3339 with milliseconds: digits but for "-" at 4 and 7, "T" at 10, ":"
      at 13 and 16, "." at 19 and "Z" at 23. */
  ghost predicate IsDateTime(b: Text) {
    && |b| == 24 && b[4] == 45 && b[7] == 45 && b[10] == 84 && b[13] == 58 && b[16] == 58 && b[19] == 46 && b[23] == 90
    && forall i :: 0 <= i < 23 && i != 4 && i != 7 && i != 10 && i != 13 && i != 16 && i != 19 ==> 48 <= b[i] <= 57
  }

  lemma ColumnsForm(y: Text, m: Text, d: Text, h: Text, mi: Text, s: Text, f: Text)
    requires |y| == 4 && |m| == |d| == |h| == |mi| == |s| == 2 && |f| == 3
    requires AllDigits(y) && AllDigits(m) && AllDigits(d) && AllDigits(h) && AllDigits(mi) && AllDigits(s) && AllDigits(f)
    ensures var b := Columns(y, m, d, h, mi, s, [DOT] + (f + [LETTER_Z])); IsDateTime(b) && b[20..23] == f
  {
    var b := Columns(y, m, d, h, mi, s, [DOT] + (f + [LETTER_Z]));
    ColumnSlices(y, m, d, h, mi, s, [DOT] + (f + [LETTER_Z]));
    assert b[20..23] == f;
    assert b[0] == y[0] && b[1] == y[1] && b[2] == y[2] && b[3] == y[3];
    assert b[5] == m[0] && b[6] == m[1] && b[8] == d[0] && b[9] == d[1];
    assert b[11] == h[0] && b[12] == h[1] && b[14] == mi[0] && b[15] == mi[1] && b[17] == s[0] && b[18] == s[1];
    assert b[20] == f[0] && b[21] == f[1] && b[22] == f[2];
  }

  lemma LayoutForm(date: Date, h: nat, mi: nat, s: nat, millis: nat)
    requires IsDate(date) && 0 <= date.year < 10_000 && h < 100 && mi < 100 && s < 100 && millis < 1000
    ensures var b := Layout(date, h, mi, s, millis);
      IsDateTime(b) && AllDigits(b[20..23]) && Value(b[20..23]) == millis
  {
    SmallFields(date.year); SmallFields(date.month); SmallFields(date.day);
    SmallFields(h); SmallFields(mi); SmallFields(s); SmallFields(millis);
    PaddedWidth(date.year, 4); PaddedWidth(date.month, 2); PaddedWidth(date.day, 2);
    PaddedWidth(h, 2); PaddedWidth(mi, 2); PaddedWidth(s, 2); PaddedWidth(millis, 3);
    ColumnsForm(Padded(date.year, 4), Padded(date.month, 2), Padded(date.day, 2), Padded(h, 2), Padded(mi, 2),
                Padded(s, 2), Padded(millis, 3));
  }

  /** Every instant of a four-digit year prints in that form, its milliseconds in the last three digits. */
  lemma PrintedForm(ms: nat)
    requires ms < 253_402_300_800_000
    ensures var b := Printed(ms); IsDateTime(b) && AllDigits(b[20..23]) && Value(b[20..23]) == ms % 1000
  {
    hide Layout, IsDateTime, CivilFromDays;
    var secs := ms / 1000;
    var days, tod := secs / 86_400, secs % 86_400;
    SplitInstant(ms, secs, days, tod);
    YearNotNegative(days);
    YearBelow10000(days);
    TimeOfDay(tod);
    LayoutForm(CivilFromDays(days), tod / 3600, tod % 3600 / 60, tod % 60, ms % 1000);
  }

  // ---------- What is accepted ----------

  /** An integer is digits, alone or after one sign (bytes 43 and 45), that make a 64-bit value. */
  lemma IntegerForms(b: Text, digits: Text)
    requires AllDigits(digits) && digits != []
    ensures b == digits || b == [43] + digits ==>
      ParseI64(b) == if Value(digits) < 0x8000_0000_0000_0000 then Some(Value(digits)) else None
    ensures b == [45] + digits ==>
      var n: int := Value(digits); ParseI64(b) == if n <= 0x8000_0000_0000_0000 then Some(-n) else None
    ensures ParseI64(b).Some? ==> |b| > 0 && AllDigits(b[1..]) && (IsDigit(b[0]) || b[0] == 43 || b[0] == 45)
  {
    assert IsDigit(digits[0]);
    assert ([43] + digits)[1..] == digits && ([45] + digits)[1..] == digits;
  }


  lemma DigitsParse(b: Text)
    requires b != [] && |b| <= 4 && AllDigits(b)
    ensures ParseI64(b) == Some(Value(b))
  {
    ValueBound(b);
    assert IsDigit(b[0]);
    assert Pow10(4) == 10 * Pow10(3) == 100 * Pow10(2) == 1000 * Pow10(1) == 10_000;
    assert |b| == 1 || |b| == 2 || |b| == 3 || |b| == 4;
  }

  ghost predicate DigitColumns(b: Text) {
    && |b| >= 19 && AllDigits(b[0..4]) && AllDigits(b[5..7]) && AllDigits(b[8..10])
    && AllDigits(b[11..13]) && AllDigits(b[14..16]) && AllDigits(b[17..19])
  }

  /** With digits in its columns a text is accepted exactly for a month from 1 to 12 and a day from 1 to 31 not
      before 1970, and then means that instant, whatever the separators and the rest are. */
  lemma AcceptedIff(b: Text)
    requires DigitColumns(b)
    ensures var date := Date(Value(b[0..4]), Value(b[5..7]), Value(b[8..10]));
            var secs := 86_400 * DaysFromCivil(date) + 3600 * Value(b[11..13]) + 60 * Value(b[14..16]) + Value(b[17..19]);
      Iso8601ToUnix(b) == if 1 <= date.month && date.month <= 12 && 1 <= date.day && date.day <= 31 && secs >= 0
                          then Some(secs) else None
  {
    hide DaysFromCivil, Value;
    DigitsParse(b[0..4]);
    DigitsParse(b[5..7]);
    DigitsParse(b[8..10]);
    DigitsParse(b[11..13]);
    DigitsParse(b[14..16]);
    DigitsParse(b[17..19]);
  }

  // ---------- Past the year 9999 ----------

  lemma {:induction false} ValueBound(b: Text)
    requires AllDigits(b)
    ensures Value(b) < Pow10(|b|)
  {
    if b != [] {
      ValueBound(b[..|b| - 1]);
    }
  }

  lemma ParsedBound(b: Text, width: nat)
    requires |b| == width && (width == 2 || width == 4) && ParseI64(b).Some?
    ensures ParseI64(b).value < (if width == 2 then 100 else 10_000)
  {
    var digits := if b != [] && (b[0] == MINUS || b[0] == PLUS) then b[1..] else b;
    ValueBound(digits);
    assert Pow10(4) == 10 * Pow10(3) == 100 * Pow10(2) == 1000 * Pow10(1) == 10_000;
  }

  lemma DaysBound(date: Date)
    requires date.year < 10_000 && 1 <= date.month <= 12 && date.day <= 31
    ensures DaysFromCivil(date) <= 2_933_100
  {
    var y := if date.month <= 2 then date.year - 1 else date.year;
    TruncatedEra(y, 400, y / 400);
  }

  /** No accepted text means an instant after the year 10000 by more than a few months. */
  lemma ParsedInstantBound(b: Text)
    requires Iso8601ToUnix(b).Some?
    ensures Iso8601ToUnix(b).value < 253_500_000_000
  {
    ParsedBound(b[0..4], 4);
    ParsedBound(b[11..13], 2);
    ParsedBound(b[14..16], 2);
    ParsedBound(b[17..19], 2);
    DaysBound(Date(ParseI64(b[0..4]).value, ParseI64(b[5..7]).value, ParseI64(b[8..10]).value));
  }

  lemma FirstDayOf100000()
    ensures CivilFromDays(35_804_722) == Date(100_000, 1, 1)
  {
  }

  lemma YearBelow100000(days: nat)
    ensures CivilFromDays(days).year < 100_000 <==> days < 35_804_722
  {
    FirstDayOf100000();
    DaysRoundTrip(days);
    if days < 35_804_722 {
      DaysOrder(days, 35_804_722);
    } else if days > 35_804_722 {
      DaysOrder(35_804_722, days);
    }
  }

  lemma FiveDigitYear(year: nat)
    requires 10_000 <= year < 100_000
    ensures |Padded(year, 4)| == 5
  {
    var lead := year / 10 / 10 / 10 / 10;
    assert 1 <= lead < 10;
    assert Padded(lead, 0) == Decimal(lead) && |Decimal(lead)| == 1;
    assert |Padded(year / 10 / 10 / 10, 1)| == 2;
    assert |Padded(year / 10 / 10, 2)| == 3;
    assert |Padded(year / 10, 3)| == 4;
  }

  /** A five-digit year shifts the month column onto the separator: "-0" or "-1", never a month. */
  lemma ShiftedMonthRejected(y: Text, m: Text, rest: Text)
    requires |y| == 5 && |m| == 2
    ensures Iso8601ToUnix(y + ([MINUS] + (m + rest))) == None
  {
    var b := y + ([MINUS] + (m + rest));
    if |b| >= 19 {
      var col := b[5..7];
      assert col[0] == MINUS;
      if ParseI64(col).Some? {
        assert AllDigits(col[1..]);
        assert ParseI64(col).value <= 0;
      }
    }
  }

  lemma LateTextRejected(date: Date, h: nat, mi: nat, s: nat, millis: nat)
    requires IsDate(date) && 10_000 <= date.year < 100_000
    ensures Iso8601ToUnix(Layout(date, h, mi, s, millis)) == None
  {
    FiveDigitYear(date.year);
    SmallFields(date.month);
    PaddedWidth(date.month, 2);
    ShiftedMonthRejected(Padded(date.year, 4), Padded(date.month, 2),
      [MINUS] + (Padded(date.day, 2) + ([LETTER_T] + (Padded(h, 2) + ([COLON] + (Padded(mi, 2) + ([COLON] +
        (Padded(s, 2) + Fraction(millis)))))))));
  }

  /** The text round trip holds exactly for the instants of four-digit years. */
  lemma RoundTripIffFourDigitYear(ms: nat)
    ensures Iso8601ToUnix(Printed(ms)) == Some(ms / 1000) <==> ms < YEAR_10000
  {
    var secs := ms / 1000;
    var days, tod := secs / 86_400, secs % 86_400;
    SplitInstant(ms, secs, days, tod);
    if ms < YEAR_10000 {
      PrintedParses(ms);
    } else {
      LateInstantFails(days, tod, ms % 1000, secs);
    }
  }

  lemma LateInstantFails(days: nat, tod: nat, millis: nat, secs: nat)
    requires days >= 2_932_897 && secs == days * 86_400 + tod
    ensures Iso8601ToUnix(PrintedAt(days, tod, millis)) != Some(secs)
  {
    YearBelow10000(days);
    YearBelow100000(days);
    YearNotNegative(days);
    if days < 35_804_722 {
      LateTextRejected(CivilFromDays(days), tod / 3600, tod % 3600 / 60, tod % 60, millis);
    } else if Iso8601ToUnix(PrintedAt(days, tod, millis)).Some? {
      ParsedInstantBound(PrintedAt(days, tod, millis));
    }
  }

  // ---------- Order ----------

  lemma SameWidth(n: nat, k: nat, width: nat)
    requires n < Pow10(width) && k < Pow10(width)
    ensures |Padded(n, width)| == |Padded(k, width)|
    ensures n < k ==> Less(Padded(n, width), Padded(k, width))
  {
    PaddedWidth(n, width);
    PaddedWidth(k, width);
    if n < k {
      PaddedOrder(n, k, width);
    }
  }

  /** One separated field: a smaller field decides, an equal one defers to what follows. */
  lemma FieldDecides(a: Text, b: Text, sep: Byte, x: Text, y: Text)
    requires |a| == |b| && (Less(a, b) || (a == b && Less(x, y)))
    ensures Less(a + ([sep] + x), b + ([sep] + y))
  {
    if Less(a, b) {
      LessByField(a, b, [sep] + x, [sep] + y);
    } else {
      LessAfterField([sep], x, y);
      LessAfterField(a, [sep] + x, [sep] + y);
    }
  }

  lemma ClockOrder(tod: nat, tod': nat, millis: nat, millis': nat)
    requires tod < 86_400 && tod' < 86_400 && millis < 1000 && millis' < 1000
    requires tod < tod' || (tod == tod' && millis < millis')
    ensures Less(ClockText(tod, millis), ClockText(tod', millis'))
  {
    TimeOfDay(tod);
    TimeOfDay(tod');
    ClockFieldsOrder(tod / 3600, tod % 3600 / 60, tod % 60, millis, tod' / 3600, tod' % 3600 / 60, tod' % 60, millis');
  }

  function ClockText(tod: nat, millis: nat): Text {
    HmsText(tod / 3600, tod % 3600 / 60, tod % 60, millis)
  }

  function HmsText(h: nat, mi: nat, s: nat, millis: nat): Text {
    Padded(h, 2) + ([COLON] + (Padded(mi, 2) + ([COLON] + (Padded(s, 2) + Fraction(millis)))))
  }

  lemma ClockFieldsOrder(h: nat, mi: nat, s: nat, ms: nat, h': nat, mi': nat, s': nat, ms': nat)
    requires h < 100 && mi < 100 && s < 100 && ms < 1000 && h' < 100 && mi' < 100 && s' < 100 && ms' < 1000
    requires h < h' || (h == h' && (mi < mi' || (mi == mi' && (s < s' || (s == s' && ms < ms')))))
    ensures Less(HmsText(h, mi, s, ms), HmsText(h', mi', s', ms'))
  {
    SmallFields(h); SmallFields(mi); SmallFields(s); SmallFields(ms);
    SmallFields(h'); SmallFields(mi'); SmallFields(s'); SmallFields(ms');
    SameWidth(h, h', 2);
    SameWidth(mi, mi', 2);
    SameWidth(s, s', 2);
    SameWidth(ms, ms', 3);
    if h == h' && mi == mi' && s == s' {
      LessByField(Padded(ms, 3), Padded(ms', 3), [LETTER_Z], [LETTER_Z]);
    }
    var x, x' := Padded(s, 2) + Fraction(ms), Padded(s', 2) + Fraction(ms');
    if h == h' && mi == mi' {
      FieldDecides(Padded(s, 2), Padded(s', 2), DOT, Padded(ms, 3) + [LETTER_Z], Padded(ms', 3) + [LETTER_Z]);
    }
    if h == h' {
      FieldDecides(Padded(mi, 2), Padded(mi', 2), COLON, x, x');
    }
    FieldDecides(Padded(h, 2), Padded(h', 2), COLON,
                 Padded(mi, 2) + ([COLON] + x), Padded(mi', 2) + ([COLON] + x'));
  }

  function DatedText(date: Date, clock: Text): Text
    requires IsDate(date) && date.year >= 0
  {
    Padded(date.year, 4) + ([MINUS] + (Padded(date.month, 2) + ([MINUS] + (Padded(date.day, 2) + ([LETTER_T] + clock)))))
  }

  lemma DatedOrder(a: Date, b: Date, x: Text, y: Text)
    requires IsDate(a) && IsDate(b) && 0 <= a.year < 10_000 && 0 <= b.year < 10_000
    requires Before(a, b) || (a == b && Less(x, y))
    ensures Less(DatedText(a, x), DatedText(b, y))
  {
    SmallFields(a.year); SmallFields(a.month); SmallFields(a.day);
    SmallFields(b.year); SmallFields(b.month); SmallFields(b.day);
    SameWidth(a.year, b.year, 4);
    SameWidth(a.month, b.month, 2);
    SameWidth(a.day, b.day, 2);
    var p, q := Padded(a.day, 2) + ([LETTER_T] + x), Padded(b.day, 2) + ([LETTER_T] + y);
    if a.year == b.year && a.month == b.month {
      FieldDecides(Padded(a.day, 2), Padded(b.day, 2), LETTER_T, x, y);
    }
    if a.year == b.year {
      FieldDecides(Padded(a.month, 2), Padded(b.month, 2), MINUS, p, q);
    }
    FieldDecides(Padded(a.year, 4), Padded(b.year, 4), MINUS,
                 Padded(a.month, 2) + ([MINUS] + p), Padded(b.month, 2) + ([MINUS] + q));
  }

  lemma PrintedAtOrder(d: nat, tod: nat, millis: nat, d': nat, tod': nat, millis': nat)
    requires d < 2_932_897 && d' < 2_932_897 && tod < 86_400 && tod' < 86_400 && millis < 1000 && millis' < 1000
    requires d < d' || (d == d' && (tod < tod' || (tod == tod' && millis < millis')))
    ensures Less(PrintedAt(d, tod, millis), PrintedAt(d', tod', millis'))
  {
    YearNotNegative(d);
    YearNotNegative(d');
    YearBelow10000(d);
    YearBelow10000(d');
    if d < d' {
      DaysOrder(d, d');
    } else {
      ClockOrder(tod, tod', millis, millis');
    }
    DatedOrder(CivilFromDays(d), CivilFromDays(d'), ClockText(tod, millis), ClockText(tod', millis'));
  }

  lemma EarlierPrintsLess(a: nat, b: nat)
    requires a < b < YEAR_10000
    ensures Less(Printed(a), Printed(b))
  {
    var sa, sb := a / 1000, b / 1000;
    SplitInstant(a, sa, sa / 86_400, sa % 86_400);
    SplitInstant(b, sb, sb / 86_400, sb % 86_400);
    PrintedAtOrder(sa / 86_400, sa % 86_400, a % 1000, sb / 86_400, sb % 86_400, b % 1000);
  }

  /** Text order is time order (section 5.1 of RFC 3339), for all instants of four-digit years. */
  lemma TextOrderIsTimeOrder(a: nat, b: nat)
    requires a < YEAR_10000 && b < YEAR_10000
    ensures Less(Printed(a), Printed(b)) <==> a < b
  {
    if a < b {
      EarlierPrintsLess(a, b);
    } else if b < a {
      EarlierPrintsLess(b, a);
      LessAsymmetric(Printed(b), Printed(a));
    } else {
      LessIrreflexive(Printed(a));
    }
  }
}
