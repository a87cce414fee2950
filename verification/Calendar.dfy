/** Dates and counts as the text that Redis holds. */
module Calendar {
  import opened Counts

  datatype Date = Date(year: nat, month: nat, day: nat)

  predicate Leap(year: nat) {
    year % 4 == 0 && (year % 100 != 0 || year % 400 == 0)
  }

  function MonthLength(year: nat, month: nat): nat {
    if month == 2 then (if Leap(year) then 29 else 28)
    else if month in {4, 6, 9, 11} then 30
    else 31
  }

  predicate ValidDate(t: Date) {
    1 <= t.month <= 12 && 1 <= t.day <= MonthLength(t.year, t.month)
  }

  function NextDay(t: Date): (next: Date)
    requires ValidDate(t)
    ensures ValidDate(next) && next != Date(0, 1, 1) && PrevDay(next) == t
  {
    if t.day < MonthLength(t.year, t.month) then t.(day := t.day + 1)
    else if t.month < 12 then Date(t.year, t.month + 1, 1)
    else Date(t.year + 1, 1, 1)
  }

  function PrevDay(t: Date): Date
    requires ValidDate(t) && t != Date(0, 1, 1)
  {
    if t.day > 1 then t.(day := t.day - 1)
    else if t.month > 1 then Date(t.year, t.month - 1, MonthLength(t.year, t.month - 1))
    else Date(t.year - 1, 12, 31)
  }

  // Day 0 is the first of January of the year 0.
  function DateOf(n: nat): (t: Date)
    ensures ValidDate(t)
  {
    if n == 0 then Date(0, 1, 1) else NextDay(DateOf(n - 1))
  }

  function DayNumber(t: Date): nat
    requires ValidDate(t)
    decreases t.year, t.month, t.day
  {
    if t == Date(0, 1, 1) then 0 else DayNumber(PrevDay(t)) + 1
  }

  lemma {:induction false} DayNumberOfDate(n: nat)
    ensures DayNumber(DateOf(n)) == n
  {
    if n > 0 { DayNumberOfDate(n - 1); }
  }

  lemma {:induction false} DateOfDayNumber(t: Date)
    requires ValidDate(t)
    ensures DateOf(DayNumber(t)) == t
    decreases t.year, t.month, t.day
  {
    if t != Date(0, 1, 1) { DateOfDayNumber(PrevDay(t)); }
  }

  /** Which dates exist, month by month. */
  lemma WhichDatesExist(y: nat, m: nat, d: nat)
    ensures ValidDate(Date(y, m, d)) <==>
      && 1 <= m <= 12 && 1 <= d <= 31
      && (d == 31 ==> m == 1 || m == 3 || m == 5 || m == 7 || m == 8 || m == 10 || m == 12)
      && (m == 2 ==> d <= 29)
      && (m == 2 && d == 29 ==> y % 4 == 0 && (y % 100 != 0 || y % 400 == 0))
  {
  }

  // Days before the first of January of year y, 365 for each year and the leap days of the years before.
  function DaysBeforeYear(y: nat): int {
    365 * y + (y + 3) / 4 - (y + 99) / 100 + (y + 399) / 400
  }

  // Days of the year before month m.
  function DaysBeforeMonth(m: nat, leap: bool): nat {
    var feb := if leap then 29 else 28;
    if m <= 1 then 0
    else if m == 2 then 31
    else if m == 3 then 31 + feb
    else if m == 4 then 62 + feb
    else if m == 5 then 92 + feb
    else if m == 6 then 123 + feb
    else if m == 7 then 153 + feb
    else if m == 8 then 184 + feb
    else if m == 9 then 215 + feb
    else if m == 10 then 245 + feb
    else if m == 11 then 276 + feb
    else if m == 12 then 306 + feb
    else 337 + feb
  }

  lemma Centuries(y: nat)
    ensures y % 100 == 0 ==> y % 4 == 0
    ensures y % 400 == 0 ==> y % 100 == 0
  {
    var c, f := y / 100, y / 400;
    assert y % 100 == 0 ==> y == 4 * (25 * c);
    assert y % 400 == 0 ==> y == 100 * (4 * f);
  }

  lemma Fours(y: nat)
    ensures (y + 4) / 4 == (y + 3) / 4 + if y % 4 == 0 then 1 else 0
  {
  }

  lemma Hundreds(y: nat)
    ensures (y + 100) / 100 == (y + 99) / 100 + if y % 100 == 0 then 1 else 0
  {
  }

  lemma FourHundreds(y: nat)
    ensures (y + 400) / 400 == (y + 399) / 400 + if y % 400 == 0 then 1 else 0
  {
  }

  lemma NextYear(y: nat)
    ensures var days := if y % 4 == 0 && (y % 100 != 0 || y % 400 == 0) then 366 else 365;
      DaysBeforeYear(y + 1) == DaysBeforeYear(y) + days
  {
    Centuries(y);
    Fours(y);
    Hundreds(y);
    FourHundreds(y);
  }

  lemma LeapYears(y: nat)
    ensures Leap(y) <==> y % 4 == 0 && (y % 100 != 0 || y % 400 == 0)
  {
  }

  lemma NextMonth(y: nat, m: nat, leap: bool)
    requires 1 <= m <= 12 && leap == Leap(y)
    ensures DaysBeforeMonth(m + 1, leap) == DaysBeforeMonth(m, leap) + MonthLength(y, m)
  {
  }

  /** The days before a date of the proleptic Gregorian calendar, counted from the first of January of the year 0. */
  function DaysBefore(y: nat, m: nat, d: nat): int {
    DaysBeforeYear(y) + DaysBeforeMonth(m, y % 4 == 0 && (y % 100 != 0 || y % 400 == 0)) + d - 1
  }

  lemma PrevDayIsBefore(t: Date)
    requires ValidDate(t) && t != Date(0, 1, 1)
    ensures var before := PrevDay(t);
      DaysBefore(t.year, t.month, t.day) == DaysBefore(before.year, before.month, before.day) + 1
  {
    if t.day == 1 {
      if t.month > 1 {
        LeapYears(t.year);
        NextMonth(t.year, t.month - 1, Leap(t.year));
      } else {
        NextYear(t.year - 1);
        LeapYears(t.year - 1);
        NextMonth(t.year - 1, 12, Leap(t.year - 1));
      }
    }
  }

  /** Day numbers count the days of that calendar. */
  lemma {:induction false} DayNumberIsDaysBefore(t: Date)
    requires ValidDate(t)
    ensures DayNumber(t) == DaysBefore(t.year, t.month, t.day)
    decreases t.year, t.month, t.day
  {
    if t != Date(0, 1, 1) {
      DayNumberIsDaysBefore(PrevDay(t));
      PrevDayIsBefore(t);
    }
  }

  // ---- Digits -------------------------------------------------------------------------------------------

  predicate IsDigit(c: char) {
    '0' <= c <= '9'
  }

  function DigitChar(d: nat): (c: char)
    requires d < 10
    ensures IsDigit(c) && DigitValue(c) == d
  {
    (d + 48) as char
  }

  function DigitValue(c: char): (d: nat)
    requires IsDigit(c)
    ensures d < 10
  {
    c as int - 48
  }

  predicate AllDigits(s: string) {
    forall i :: 0 <= i < |s| ==> IsDigit(s[i])
  }

  function Value(s: string): nat
    requires AllDigits(s)
  {
    if s == "" then 0 else Value(s[..|s| - 1]) * 10 + DigitValue(s[|s| - 1])
  }

  function PrintNat(n: nat): (s: string)
    ensures s != "" && AllDigits(s)
  {
    if n < 10 then [DigitChar(n)] else PrintNat(n / 10) + [DigitChar(n % 10)]
  }

  function PrintInt(n: int): string {
    if n < 0 then "-" + PrintNat(-n) else PrintNat(n)
  }

  lemma {:induction false} ValueOfPrint(n: nat)
    ensures Value(PrintNat(n)) == n
  {
    var s := PrintNat(n);
    if n < 10 {
      assert s[..|s| - 1] == "";
    } else {
      ValueOfPrint(n / 10);
      assert s[..|s| - 1] == PrintNat(n / 10);
    }
  }

  const I64_MAX: int := 0x7fff_ffff_ffff_ffff

  // str::parse::<i64>: an optional sign, at least one digit, no overflow.
  function ParseI64(s: string): Option<int> {
    var digits := if s != "" && (s[0] == '-' || s[0] == '+') then s[1..] else s;
    if digits == "" || !AllDigits(digits) then None
    else
      var n := if s[0] == '-' then 0 - Value(digits) else Value(digits) + 0;
      if -I64_MAX - 1 <= n <= I64_MAX then Some(n) else None
  }

  /** Printing a count and parsing it gives the count back; so equal text means equal counts. */
  lemma ParsePrint(n: nat)
    requires n <= I64_MAX
    ensures ParseI64(PrintNat(n)) == Some(n)
  {
    ValueOfPrint(n);
    assert IsDigit(PrintNat(n)[0]);
  }

  function InRange(n: int): Option<int> {
    if -0x8000_0000_0000_0000 <= n <= 0x7fff_ffff_ffff_ffff then Some(n) else None
  }

  /** What parses as a 64-bit integer: digits, in range, */
  lemma ParseUnsigned(s: string)
    requires s != "" && AllDigits(s)
    ensures ParseI64(s) == InRange(Value(s))
  {
    assert IsDigit(s[0]);
  }

  /** or a sign and digits, */
  lemma ParseSigned(digits: string)
    requires digits != "" && AllDigits(digits)
    ensures ParseI64("+" + digits) == InRange(Value(digits)) && ParseI64("-" + digits) == InRange(0 - Value(digits))
  {
    assert ("+" + digits)[1..] == digits && ("-" + digits)[1..] == digits;
  }

  /** and nothing else. */
  lemma ParseNothingElse(s: string)
    requires s == "" || !AllDigits(s)
    requires |s| < 2 || (s[0] != '+' && s[0] != '-') || !AllDigits(s[1..])
    ensures ParseI64(s) == None
  {
  }

  lemma ParsePrintInt(n: int)
    requires -I64_MAX - 1 <= n <= I64_MAX
    ensures ParseI64(PrintInt(n)) == Some(n)
  {
    if n < 0 {
      ValueOfPrint(-n);
      assert PrintInt(n)[1..] == PrintNat(-n);
    } else {
      ParsePrint(n);
    }
  }

  lemma PrintInjective(a: nat, b: nat)
    ensures PrintNat(a) == PrintNat(b) <==> a == b
  {
    ValueOfPrint(a);
    ValueOfPrint(b);
  }

  // ---- Dates --------------------------------------------------------------------------------------------

  function Pad2(n: nat): string
    requires n < 100
  {
    [DigitChar(n / 10), DigitChar(n % 10)]
  }

  function Pad4(n: nat): string
    requires n < 10000
  {
    Pad2(n / 100) + Pad2(n % 100)
  }

  // format("%Y-%m-%d") for the years 0 to 9999
  function PrintDate(t: Date): string
    requires ValidDate(t) && t.year <= 9999
  {
    Pad4(t.year) + "-" + Pad2(t.month) + "-" + Pad2(t.day)
  }

  // The digits, at most `most`, at the start of the text.
  function LeadingDigits(s: string, most: nat): (n: nat)
    ensures n <= most && n <= |s| && AllDigits(s[..n])
    ensures n < most && n < |s| ==> !IsDigit(s[n])
  {
    if most == 0 || s == "" || !IsDigit(s[0]) then 0
    else
      var n := LeadingDigits(s[1..], most - 1) + 1;
      assert s[..n] == [s[0]] + s[1..][..n - 1];
      n
  }

  predicate Digits(s: string, most: nat) {
    1 <= |s| <= most && AllDigits(s)
  }

  // The digits before a dash, and what follows it.
  function TakeField(s: string, most: nat): (r: Option<(string, string)>)
    ensures r.Some? ==> Digits(r.value.0, most) && s == r.value.0 + ("-" + r.value.1)
  {
    var n := LeadingDigits(s, most);
    if n == 0 || n >= |s| || s[n] != '-' then None else Some((s[..n], s[n + 1..]))
  }

  /** NaiveDate::parse_from_str(s, "%Y-%m-%d") on text without signs and blanks: up to four digits, up to two,
      up to two, nothing left over, and a date that exists. */
  function ParseDate(s: string): (r: Option<Date>)
    ensures r.Some? ==> ValidDate(r.value)
  {
    var year := TakeField(s, 4);
    if year.None? then None
    else
      var month := TakeField(year.value.1, 2);
      if month.None? || !Digits(month.value.1, 2) then None
      else
        var t := Date(Value(year.value.0), Value(month.value.0), Value(month.value.1));
        if ValidDate(t) then Some(t) else None
  }

  lemma ValueOfPad2(n: nat)
    requires n < 100
    ensures Value(Pad2(n)) == n && AllDigits(Pad2(n)) && |Pad2(n)| == 2
  {
    var tens := [DigitChar(n / 10)];
    assert Pad2(n)[..1] == tens && tens[..0] == "";
    assert Value(tens) == n / 10;
  }

  lemma ValueOfPad4(n: nat)
    requires n < 10000
    ensures AllDigits(Pad4(n)) && |Pad4(n)| == 4 && Value(Pad4(n)) == n
  {
    var s := Pad4(n);
    assert s == [DigitChar(n / 100 / 10), DigitChar(n / 100 % 10), DigitChar(n % 100 / 10), DigitChar(n % 100 % 10)];
    assert s[..3][..2] == Pad2(n / 100);
    assert s[..3][2] == s[2];
    ValueOfPad2(n / 100);
  }

  lemma {:induction false} LeadingAll(s: string, rest: string, most: nat)
    requires AllDigits(s) && |s| <= most && (|s| < most && rest != "" ==> !IsDigit(rest[0]))
    ensures LeadingDigits(s + rest, most) >= |s|
    ensures |s| == most || rest == "" || !IsDigit(rest[0]) ==> LeadingDigits(s + rest, most) == |s|
    decreases |s|
  {
    if s == "" {
      assert s + rest == rest;
    } else {
      assert (s + rest)[1..] == s[1..] + rest;
      LeadingAll(s[1..], rest, most - 1);
    }
  }

  lemma FieldTaken(x: string, rest: string, most: nat)
    requires Digits(x, most)
    ensures TakeField(x + ("-" + rest), most) == Some((x, rest))
  {
    LeadingAll(x, "-" + rest, most);
    var s := x + ("-" + rest);
    assert s[..|x|] == x && s[|x|] == '-' && s[|x| + 1..] == rest;
  }

  /** Whatever is shaped like a date parses exactly if the date exists. */
  lemma ParseDateOf(s: string, y: string, rest: string, m: string, d: string)
    requires Digits(y, 4) && Digits(m, 2) && Digits(d, 2) && s == y + ("-" + rest) && rest == m + ("-" + d)
    ensures var t := Date(Value(y), Value(m), Value(d));
      ParseDate(s) == if ValidDate(t) then Some(t) else None
  {
    FieldTaken(y, rest, 4);
    FieldTaken(m, d, 2);
  }

  /** And nothing else parses. */
  lemma ParsedDateShape(s: string) returns (y: string, rest: string, m: string, d: string)
    requires ParseDate(s).Some?
    ensures Digits(y, 4) && Digits(m, 2) && Digits(d, 2) && s == y + ("-" + rest) && rest == m + ("-" + d)
    ensures ParseDate(s) == Some(Date(Value(y), Value(m), Value(d)))
  {
    y, rest := TakeField(s, 4).value.0, TakeField(s, 4).value.1;
    m, d := TakeField(rest, 2).value.0, TakeField(rest, 2).value.1;
  }

  /** Printing a date and parsing it gives the date back. */
  lemma ParsePrintDate(t: Date)
    requires ValidDate(t) && t.year <= 9999
    ensures ParseDate(PrintDate(t)) == Some(t)
  {
    var year, month, day := Pad4(t.year), Pad2(t.month), Pad2(t.day);
    ValueOfPad4(t.year);
    ValueOfPad2(t.month);
    ValueOfPad2(t.day);
    var rest := month + ("-" + day);
    assert PrintDate(t) == year + ("-" + rest);
    ParseDateOf(PrintDate(t), year, rest, month, day);
  }

  /** A printed date is ten characters, year, month and day in digits, with dashes between. */
  lemma PrintDateShape(t: Date)
    requires ValidDate(t) && t.year <= 9999
    ensures var s := PrintDate(t);
      && |s| == 10 && s[4] == '-' && s[7] == '-' && AllDigits(s[..4]) && AllDigits(s[5..7]) && AllDigits(s[8..])
      && Value(s[..4]) == t.year && Value(s[5..7]) == t.month && Value(s[8..]) == t.day
  {
    ValueOfPad4(t.year);
    ValueOfPad2(t.month);
    ValueOfPad2(t.day);
    var s := PrintDate(t);
    assert s[..4] == Pad4(t.year) && s[5..7] == Pad2(t.month) && s[8..] == Pad2(t.day);
  }
}
