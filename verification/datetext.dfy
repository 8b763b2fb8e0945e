/**
  The textual date formats of the core: `strftime("%m-%d-%Y")` (report directory names),
  `Series.astype(str)` of a midnight datetime column ("YYYY-MM-DD"), and `datetime.strptime`
  with the formats "%m-%d-%Y" and "%Y-%m-%d". The parsers follow strptime's regular
  expressions: %m is `1[0-2]|0[1-9]|[1-9]`, %d is `3[01]|[12]\d|0[1-9]|[1-9]| [1-9]`, %Y is
  exactly four digits, the whole string must be consumed, the year must be at least 1 and the
  day must exist in its month; anything else raises ValueError (here: None).
*/
module DateText {
  import opened Wrappers
  import opened Calendar
  import Text

  predicate IsDigit(c: char) {
    '0' <= c <= '9'
  }

  function DigitChar(n: int): (c: char)
    requires 0 <= n <= 9
    ensures IsDigit(c) && c as int - '0' as int == n
  {
    ('0' as int + n) as char
  }

  function DigitValue(c: char): int
    requires IsDigit(c)
  {
    c as int - '0' as int
  }

  function Pad2(n: int): (s: string)
    requires 0 <= n <= 99
    ensures |s| == 2 && IsDigit(s[0]) && IsDigit(s[1])
    ensures 10 * DigitValue(s[0]) + DigitValue(s[1]) == n
  {
    [DigitChar(n / 10), DigitChar(n % 10)]
  }

  function Pad4(n: int): (s: string)
    requires 0 <= n <= 9999
    ensures |s| == 4 && forall i :: 0 <= i < 4 ==> IsDigit(s[i])
  {
    [DigitChar(n / 1000), DigitChar(n / 100 % 10), DigitChar(n / 10 % 10), DigitChar(n % 10)]
  }

  /** Decimal digits of n, without padding. */
  function Decimal(n: nat): (s: string)
    ensures |s| >= 1 && forall i :: 0 <= i < |s| ==> IsDigit(s[i])
  {
    if n < 10 then [DigitChar(n)] else Decimal(n / 10) + [DigitChar(n % 10)]
  }

  /**
    The year as written by both formatters: four digits for years 0 to 9999, which holds every
    year of the pandas Timestamp range.
  */
  function YearText(y: int): string {
    if 0 <= y <= 9999 then Pad4(y)
    else if y < 0 then "-" + Decimal(-y)
    else Decimal(y)
  }

  /** `str(ts)` / `Series.astype(str)` of a midnight timestamp: "YYYY-MM-DD". */
  function FormatIso(d: Date): string {
    YearText(d.year) + "-" + Pad2(d.month) + "-" + Pad2(d.day)
  }

  /** `ts.strftime("%m-%d-%Y")`. */
  function FormatMdy(d: Date): string {
    Pad2(d.month) + "-" + Pad2(d.day) + "-" + YearText(d.year)
  }

  // ---------------------------------------------------------------- strptime fields

  function ParseMonth(t: string): (r: Option<int>)
    ensures r.Some? ==> 1 <= r.value <= 12
  {
    if |t| == 1 && '1' <= t[0] <= '9' then Some(DigitValue(t[0]))
    else if |t| == 2 && ((t[0] == '1' && '0' <= t[1] <= '2') || (t[0] == '0' && '1' <= t[1] <= '9'))
    then Some(10 * DigitValue(t[0]) + DigitValue(t[1]))
    else None
  }

  function ParseDay(t: string): (r: Option<int>)
    ensures r.Some? ==> 1 <= r.value <= 31
  {
    if |t| == 1 && '1' <= t[0] <= '9' then Some(DigitValue(t[0]))
    else if |t| == 2 && t[0] == ' ' && '1' <= t[1] <= '9' then Some(DigitValue(t[1]))
    else if |t| == 2 && ((t[0] == '3' && (t[1] == '0' || t[1] == '1'))
                         || ((t[0] == '1' || t[0] == '2') && IsDigit(t[1]))
                         || (t[0] == '0' && '1' <= t[1] <= '9'))
    then Some(10 * DigitValue(t[0]) + DigitValue(t[1]))
    else None
  }

  function ParseYear(t: string): (r: Option<int>)
    ensures r.Some? ==> 0 <= r.value <= 9999
  {
    if |t| == 4 && IsDigit(t[0]) && IsDigit(t[1]) && IsDigit(t[2]) && IsDigit(t[3])
    then Some(1000 * DigitValue(t[0]) + 100 * DigitValue(t[1]) + 10 * DigitValue(t[2]) + DigitValue(t[3]))
    else None
  }

  /** The datetime constructor's range checks on a parsed year, month and day. */
  function MakeDate(y: Option<int>, m: Option<int>, d: Option<int>): Option<Date>
    requires m.Some? ==> 1 <= m.value <= 12
  {
    if y.Some? && m.Some? && d.Some? && 1 <= y.value && 1 <= d.value <= DaysInMonth(y.value, m.value)
    then Some(CivilDate(y.value, m.value, d.value))
    else None
  }

  /** `datetime.strptime(s, "%m-%d-%Y")`; None where it raises ValueError. */
  function ParseMdy(s: string): Option<Date> {
    match Text.IndexOf(s, '-')
    case None => None
    case Some(i) =>
      var rest := s[i + 1..];
      match Text.IndexOf(rest, '-')
      case None => None
      case Some(j) => MakeDate(ParseYear(rest[j + 1..]), ParseMonth(s[..i]), ParseDay(rest[..j]))
  }

  /** `datetime.strptime(s, "%Y-%m-%d")`; None where it raises ValueError. */
  function ParseYmd(s: string): Option<Date> {
    if |s| < 5 || s[4] != '-' then None
    else
      var rest := s[5..];
      match Text.IndexOf(rest, '-')
      case None => None
      case Some(j) => MakeDate(ParseYear(s[..4]), ParseMonth(rest[..j]), ParseDay(rest[j + 1..]))
  }

  // ---------------------------------------------------------------- round trips

  lemma ParsePad2Month(m: int)
    requires 1 <= m <= 12
    ensures ParseMonth(Pad2(m)) == Some(m)
  {
  }

  lemma ParsePad2Day(d: int)
    requires 1 <= d <= 31
    ensures ParseDay(Pad2(d)) == Some(d)
  {
  }

  lemma ParsePad4Year(y: int)
    requires 0 <= y <= 9999
    ensures ParseYear(Pad4(y)) == Some(y)
  {
    var a, b, c, e := y / 1000, y / 100 % 10, y / 10 % 10, y % 10;
    assert y / 100 == 10 * a + b;
    assert y / 10 == 10 * (y / 100) + c;
    assert y == 10 * (y / 10) + e;
    var t := Pad4(y);
    assert DigitValue(t[0]) == a && DigitValue(t[1]) == b && DigitValue(t[2]) == c && DigitValue(t[3]) == e;
  }

  lemma IndexOfDash(a: string, b: string)
    requires |a| == 2 && IsDigit(a[0]) && IsDigit(a[1])
    ensures Text.IndexOf(a + "-" + b, '-') == Some(2)
  {
    var s := a + "-" + b;
    assert s[2] == '-' && s[..2] == a;
  }

  /** Parsing what strftime("%m-%d-%Y") wrote gives the date back. */
  lemma {:induction false} ParseMdyOfFormat(d: Date)
    requires 1 <= d.year <= 9999
    ensures ParseMdy(FormatMdy(d)) == Some(d)
  {
    var mt, dt, yt := Pad2(d.month), Pad2(d.day), Pad4(d.year);
    var s := mt + "-" + dt + "-" + yt;
    assert FormatMdy(d) == s;
    IndexOfDash(mt, dt + "-" + yt);
    assert s == mt + "-" + (dt + "-" + yt);
    var rest := s[3..];
    assert rest == dt + "-" + yt;
    IndexOfDash(dt, yt);
    assert s[..2] == mt && rest[..2] == dt && rest[3..] == yt;
    ParsePad2Month(d.month);
    ParsePad2Day(d.day);
    ParsePad4Year(d.year);
  }

  /** Parsing what astype(str) wrote, with the "%Y-%m-%d" format, gives the date back. */
  lemma {:induction false} ParseYmdOfFormat(d: Date)
    requires 1 <= d.year <= 9999
    ensures ParseYmd(FormatIso(d)) == Some(d)
  {
    var yt, mt, dt := Pad4(d.year), Pad2(d.month), Pad2(d.day);
    var s := yt + "-" + mt + "-" + dt;
    assert FormatIso(d) == s;
    assert s[4] == '-' && s[..4] == yt;
    var rest := s[5..];
    assert rest == mt + "-" + dt;
    IndexOfDash(mt, dt);
    assert rest[..2] == mt && rest[3..] == dt;
    ParsePad2Month(d.month);
    ParsePad2Day(d.day);
    ParsePad4Year(d.year);
  }

  /** strptime accepts unpadded fields: "1-5-2015" is 2015-01-05. */
  lemma ParseMdyUnpadded()
    ensures ParseMdy("1-5-2015") == Some(CivilDate(2015, 1, 5))
  {
    assert Text.IndexOf("1-5-2015", '-') == Some(1);
    assert "1-5-2015"[2..] == "5-2015";
    assert Text.IndexOf("5-2015", '-') == Some(1);
    assert "5-2015"[2..] == "2015";
    assert "5-2015"[..1] == "5";
    assert "1-5-2015"[..1] == "1";
  }

  /** A day that does not exist in its month raises: "02-30-2015". */
  lemma ParseMdyRejectsFeb30()
    ensures ParseMdy("02-30-2015") == None
  {
    assert Text.IndexOf("02-30-2015", '-') == Some(2);
    assert "02-30-2015"[3..] == "30-2015";
    assert Text.IndexOf("30-2015", '-') == Some(2);
    assert "30-2015"[3..] == "2015";
    assert "30-2015"[..2] == "30";
    assert "02-30-2015"[..2] == "02";
  }
}
