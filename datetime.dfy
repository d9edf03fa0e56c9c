/** Naive UTC date-times as the bot handles them: `strftime` and `strptime` with the one
    format the bot uses, '%Y-%m-%d %H:%M:%S', and the instant a date-time denotes. */
module DateTimes {
  import opened Wrappers
  import opened Strings

  /** The fields of a `datetime.datetime`; microseconds never occur in the bot. */
  datatype DateTime = DateTime(year: int, month: int, day: int, hour: int, minute: int, second: int)

  predicate IsLeapYear(y: int) {
    y % 4 == 0 && (y % 100 != 0 || y % 400 == 0)
  }

  function DaysInMonth(y: int, m: int): (n: int)
    requires 1 <= m <= 12
    ensures 28 <= n <= 31
  {
    if m == 2 then (if IsLeapYear(y) then 29 else 28)
    else if m == 4 || m == 6 || m == 9 || m == 11 then 30
    else 31
  }

  /** The range checks of the `datetime` constructor (MINYEAR 1, MAXYEAR 9999). */
  predicate Valid(t: DateTime) {
    1 <= t.year <= 9999 && 1 <= t.month <= 12 && 1 <= t.day <= DaysInMonth(t.year, t.month) &&
    0 <= t.hour <= 23 && 0 <= t.minute <= 59 && 0 <= t.second <= 59
  }

  /** A date-time the `datetime` constructor accepts. */
  type Instant = t: DateTime | Valid(t) witness DateTime(1, 1, 1, 0, 0, 0)

  /** Days from 0001-01-01 to the first of January of year `y`. */
  function DaysBeforeYear(y: int): int
    requires y >= 1
  {
    var p := y - 1;
    365 * p + p / 4 - p / 100 + p / 400
  }

  /** Days from the first of January to the first day of month `m`. */
  function DaysBeforeMonth(y: int, m: int): int
    requires 1 <= m <= 12
  {
    if m == 1 then 0 else DaysBeforeMonth(y, m - 1) + DaysInMonth(y, m - 1)
  }

  /** The instant a valid date-time denotes, in seconds since 0001-01-01 00:00:00.
      Comparing and subtracting `datetime` values is comparing and subtracting these. */
  function Seconds(t: DateTime): int
    requires Valid(t)
  {
    var days := DaysBeforeYear(t.year) + DaysBeforeMonth(t.year, t.month) + t.day - 1;
    ((days * 24 + t.hour) * 60 + t.minute) * 60 + t.second
  }

  /** Two digits, zero-padded. */
  function Pad2(n: int): (r: string)
    requires 0 <= n <= 99
    ensures |r| == 2 && IsDigit(r[0]) && IsDigit(r[1])
    ensures 10 * DigitValue(r[0]) + DigitValue(r[1]) == n
  {
    [DigitChar(n / 10), DigitChar(n % 10)]
  }

  /** Four digits, zero-padded. */
  function Pad4(n: int): (r: string)
    requires 0 <= n <= 9999
    ensures |r| == 4 && forall i :: 0 <= i < 4 ==> IsDigit(r[i])
  {
    Pad2(n / 100) + Pad2(n % 100)
  }

  /** `t.strftime('%Y-%m-%d %H:%M:%S')`. */
  function Format(t: DateTime): (r: string)
    requires Valid(t)
    ensures |r| == 19
  {
    Pad4(t.year) + "-" + Pad2(t.month) + "-" + Pad2(t.day) + " " +
    Pad2(t.hour) + ":" + Pad2(t.minute) + ":" + Pad2(t.second)
  }

  /** A parsed field: its value and the index just after it. */
  datatype Field = Field(value: int, end: nat)

  function Two(s: string, i: nat): int
    requires i + 1 < |s| && IsDigit(s[i]) && IsDigit(s[i + 1])
  {
    10 * DigitValue(s[i]) + DigitValue(s[i + 1])
  }

  // Each field below is one group of the pattern `_strptime` builds for the format. Its
  // alternatives are tried in order and the first that matches is kept: a later alternative
  // is shorter and would leave a digit where the pattern continues with a separator, so
  // backtracking into it never succeeds.

  /** `(?P<Y>\d\d\d\d)` */
  function YearAt(s: string, i: nat): (r: Option<Field>)
    ensures r.Some? ==> r.value.end == i + 4 <= |s| && 0 <= r.value.value <= 9999
  {
    if i + 3 < |s| && IsDigit(s[i]) && IsDigit(s[i + 1]) && IsDigit(s[i + 2]) && IsDigit(s[i + 3])
    then Some(Field(100 * Two(s, i) + Two(s, i + 2), i + 4))
    else None
  }

  /** `(?P<m>1[0-2]|0[1-9]|[1-9])` */
  function MonthAt(s: string, i: nat): (r: Option<Field>)
    ensures r.Some? ==> i < r.value.end <= |s| && 1 <= r.value.value <= 12
  {
    if i + 1 < |s| && s[i] == '1' && '0' <= s[i + 1] <= '2' then Some(Field(Two(s, i), i + 2))
    else if i + 1 < |s| && s[i] == '0' && '1' <= s[i + 1] <= '9' then Some(Field(Two(s, i), i + 2))
    else if i < |s| && '1' <= s[i] <= '9' then Some(Field(DigitValue(s[i]), i + 1))
    else None
  }

  /** `(?P<d>3[01]|[12]\d|0[1-9]|[1-9]| [1-9])` */
  function DayAt(s: string, i: nat): (r: Option<Field>)
    ensures r.Some? ==> i < r.value.end <= |s| && 1 <= r.value.value <= 31
  {
    if i + 1 < |s| && s[i] == '3' && '0' <= s[i + 1] <= '1' then Some(Field(Two(s, i), i + 2))
    else if i + 1 < |s| && '1' <= s[i] <= '2' && IsDigit(s[i + 1]) then Some(Field(Two(s, i), i + 2))
    else if i + 1 < |s| && s[i] == '0' && '1' <= s[i + 1] <= '9' then Some(Field(Two(s, i), i + 2))
    else if i < |s| && '1' <= s[i] <= '9' then Some(Field(DigitValue(s[i]), i + 1))
    else if i + 1 < |s| && s[i] == ' ' && '1' <= s[i + 1] <= '9' then Some(Field(DigitValue(s[i + 1]), i + 2))
    else None
  }

  /** `(?P<H>2[0-3]|[0-1]\d|\d)` */
  function HourAt(s: string, i: nat): (r: Option<Field>)
    ensures r.Some? ==> i < r.value.end <= |s| && 0 <= r.value.value <= 23
  {
    if i + 1 < |s| && s[i] == '2' && '0' <= s[i + 1] <= '3' then Some(Field(Two(s, i), i + 2))
    else if i + 1 < |s| && '0' <= s[i] <= '1' && IsDigit(s[i + 1]) then Some(Field(Two(s, i), i + 2))
    else if i < |s| && IsDigit(s[i]) then Some(Field(DigitValue(s[i]), i + 1))
    else None
  }

  /** `(?P<M>[0-5]\d|\d)` */
  function MinuteAt(s: string, i: nat): (r: Option<Field>)
    ensures r.Some? ==> i < r.value.end <= |s| && 0 <= r.value.value <= 59
  {
    if i + 1 < |s| && '0' <= s[i] <= '5' && IsDigit(s[i + 1]) then Some(Field(Two(s, i), i + 2))
    else if i < |s| && IsDigit(s[i]) then Some(Field(DigitValue(s[i]), i + 1))
    else None
  }

  /** `(?P<S>6[0-1]|[0-5]\d|\d)`: 60 and 61 match here and are refused by `datetime`. */
  function SecondAt(s: string, i: nat): (r: Option<Field>)
    ensures r.Some? ==> i < r.value.end <= |s| && 0 <= r.value.value <= 61
  {
    if i + 1 < |s| && s[i] == '6' && '0' <= s[i + 1] <= '1' then Some(Field(Two(s, i), i + 2))
    else if i + 1 < |s| && '0' <= s[i] <= '5' && IsDigit(s[i + 1]) then Some(Field(Two(s, i), i + 2))
    else if i < |s| && IsDigit(s[i]) then Some(Field(DigitValue(s[i]), i + 1))
    else None
  }

  /** `datetime.strptime(s, '%Y-%m-%d %H:%M:%S')`; `None` is the `ValueError`. The space of
      the format matches `\s+`, the pattern must cover all of `s` ("unconverted data remains"
      otherwise), and the fields must make a valid date-time. */
  function Strptime(s: string): (r: Option<DateTime>)
    ensures r.Some? ==> Valid(r.value)
  {
    var y :- YearAt(s, 0);
    if y.end >= |s| || s[y.end] != '-' then None else
    var m :- MonthAt(s, y.end + 1);
    if m.end >= |s| || s[m.end] != '-' then None else
    var d :- DayAt(s, m.end + 1);
    var w := RunEnd(s, d.end, Space);
    if w == d.end then None else
    var h :- HourAt(s, w);
    if h.end >= |s| || s[h.end] != ':' then None else
    var mi :- MinuteAt(s, h.end + 1);
    if mi.end >= |s| || s[mi.end] != ':' then None else
    var sec :- SecondAt(s, mi.end + 1);
    if sec.end != |s| then None else
    var t := DateTime(y.value, m.value, d.value, h.value, mi.value, sec.value);
    if Valid(t) then Some(t) else None
  }

  lemma TwoOfPad2(s: string, i: nat, n: int)
    requires 0 <= n <= 99 && i + 1 < |s| && s[i..i + 2] == Pad2(n)
    ensures IsDigit(s[i]) && IsDigit(s[i + 1]) && Two(s, i) == n
    ensures s[i] == DigitChar(n / 10) && s[i + 1] == DigitChar(n % 10)
  {
    assert s[i] == s[i..i + 2][0] && s[i + 1] == s[i..i + 2][1];
  }

  lemma MonthOfPad2(s: string, i: nat, n: int)
    requires 1 <= n <= 12 && i + 1 < |s| && s[i..i + 2] == Pad2(n)
    ensures MonthAt(s, i) == Some(Field(n, i + 2))
  {
    TwoOfPad2(s, i, n);
  }

  lemma DayOfPad2(s: string, i: nat, n: int)
    requires 1 <= n <= 31 && i + 1 < |s| && s[i..i + 2] == Pad2(n)
    ensures DayAt(s, i) == Some(Field(n, i + 2))
  {
    TwoOfPad2(s, i, n);
  }

  lemma HourOfPad2(s: string, i: nat, n: int)
    requires 0 <= n <= 23 && i + 1 < |s| && s[i..i + 2] == Pad2(n)
    ensures HourAt(s, i) == Some(Field(n, i + 2))
  {
    TwoOfPad2(s, i, n);
  }

  lemma MinuteOfPad2(s: string, i: nat, n: int)
    requires 0 <= n <= 59 && i + 1 < |s| && s[i..i + 2] == Pad2(n)
    ensures MinuteAt(s, i) == Some(Field(n, i + 2)) && SecondAt(s, i) == Some(Field(n, i + 2))
  {
    TwoOfPad2(s, i, n);
  }

  lemma YearOfPad4(s: string, n: int)
    requires 0 <= n <= 9999 && 4 <= |s| && s[..4] == Pad4(n)
    ensures YearAt(s, 0) == Some(Field(n, 4))
  {
    assert s[0..2] == Pad2(n / 100) && s[2..4] == Pad2(n % 100);
    TwoOfPad2(s, 0, n / 100);
    TwoOfPad2(s, 2, n % 100);
  }

  /** `strptime` reads back what `strftime` wrote. */
  lemma {:induction false} StrptimeFormat(t: DateTime)
    requires Valid(t)
    ensures Strptime(Format(t)) == Some(t)
  {
    assert Format(t)[10 := ' '] == Format(t);
    StrptimeFormatAnySpace(t, ' ');
  }

  /** The space of the format matches any whitespace character, a tab or a newline too. */
  lemma {:induction false} StrptimeFormatAnySpace(t: DateTime, c: char)
    requires Valid(t) && IsSpace(c)
    ensures Strptime(Format(t)[10 := c]) == Some(t)
  {
    var f := Format(t);
    var s := f[10 := c];
    FormatParts(t);
    UpdateKeepsSlices(f, c);
    YearOfPad4(s, t.year);
    MonthOfPad2(s, 5, t.month);
    DayOfPad2(s, 8, t.day);
    HourOfPad2(s, 11, t.hour);
    MinuteOfPad2(s, 14, t.minute);
    MinuteOfPad2(s, 17, t.second);
    StrptimeOfFields(s, t);
  }

  /** Where each field and separator of a formatted time sits. */
  lemma FormatParts(t: DateTime)
    requires Valid(t)
    ensures var f := Format(t);
      f[..4] == Pad4(t.year) && f[5..7] == Pad2(t.month) && f[8..10] == Pad2(t.day) &&
      f[11..13] == Pad2(t.hour) && f[14..16] == Pad2(t.minute) && f[17..19] == Pad2(t.second)
    ensures var f := Format(t);
      f[4] == '-' && f[7] == '-' && f[10] == ' ' && f[13] == ':' && f[16] == ':'
  {
  }

  /** Replacing the character at index 10 leaves the fields around it alone. */
  lemma UpdateKeepsSlices(f: string, c: char)
    requires |f| == 19
    ensures var s := f[10 := c];
      s[..4] == f[..4] && s[5..7] == f[5..7] && s[8..10] == f[8..10] &&
      s[11..13] == f[11..13] && s[14..16] == f[14..16] && s[17..19] == f[17..19]
    ensures var s := f[10 := c];
      s[4] == f[4] && s[7] == f[7] && s[10] == c && s[13] == f[13] && s[16] == f[16]
  {
  }

  /** A 19-character text whose fields read as `t`, with one whitespace character between
      date and time, converts to `t`. */
  lemma StrptimeOfFields(s: string, t: DateTime)
    requires Valid(t) && |s| == 19
    requires YearAt(s, 0) == Some(Field(t.year, 4)) && s[4] == '-'
    requires MonthAt(s, 5) == Some(Field(t.month, 7)) && s[7] == '-'
    requires DayAt(s, 8) == Some(Field(t.day, 10)) && IsSpace(s[10])
    requires HourAt(s, 11) == Some(Field(t.hour, 13)) && s[13] == ':'
    requires MinuteAt(s, 14) == Some(Field(t.minute, 16)) && s[16] == ':'
    requires SecondAt(s, 17) == Some(Field(t.second, 19))
    ensures Strptime(s) == Some(t)
  {
    assert RunEnd(s, 10, Space) == 11 by {
      assert In(s[10], Space);
      assert !In(s[11], Space);
    }
  }

  /** Every formatted instant is a stamp: digits and the five separators. */
  lemma FormatIsStamp(t: DateTime)
    requires Valid(t)
    ensures IsStamp(Format(t))
  {
    FormatParts(t);
    var f := Format(t);
    assert f[..4] == Pad4(t.year);
  }

  /** The format's space needs at least one whitespace character in the input, so text
      without whitespace never parses. */
  lemma StrptimeNeedsSpace(s: string)
    requires forall i :: 0 <= i < |s| ==> !IsSpace(s[i])
    ensures Strptime(s) == None
  {
    match YearAt(s, 0)
    case None =>
    case Some(y) =>
      if y.end < |s| && s[y.end] == '-' {
        match MonthAt(s, y.end + 1)
        case None =>
        case Some(m) =>
          if m.end < |s| && s[m.end] == '-' {
            match DayAt(s, m.end + 1)
            case None =>
            case Some(d) =>
              assert RunEnd(s, d.end, Space) == d.end;
          }
      }
  }

  /** The 19-character stamp `YYYY-MM-DD HH:MM:SS` with digits in every digit position
      (the time string the two "Reinforced until" formats produce). */
  predicate IsStamp(s: string) {
    |s| == 19 &&
    (forall i :: 0 <= i < 19 && i != 4 && i != 7 && i != 10 && i != 13 && i != 16 ==> IsDigit(s[i])) &&
    s[4] == '-' && s[7] == '-' && s[10] == ' ' && s[13] == ':' && s[16] == ':'
  }

  /** The date-time the digits of a stamp spell, whether or not it exists. */
  function StampFields(s: string): DateTime
    requires IsStamp(s)
  {
    DateTime(100 * Two(s, 0) + Two(s, 2), Two(s, 5), Two(s, 8), Two(s, 11), Two(s, 14), Two(s, 17))
  }

  // On two digits followed by a separator, a field either reads both digits or stops after
  // one (or fails), and stopping after one leaves a digit where the separator belongs.

  lemma MonthOfTwo(s: string, i: nat)
    requires i + 1 < |s| && IsDigit(s[i]) && IsDigit(s[i + 1])
    ensures 1 <= Two(s, i) <= 12 ==> MonthAt(s, i) == Some(Field(Two(s, i), i + 2))
    ensures !(1 <= Two(s, i) <= 12) ==> MonthAt(s, i).None? || MonthAt(s, i).value.end == i + 1
  {
  }

  lemma DayOfTwo(s: string, i: nat)
    requires i + 1 < |s| && IsDigit(s[i]) && IsDigit(s[i + 1])
    ensures 1 <= Two(s, i) <= 31 ==> DayAt(s, i) == Some(Field(Two(s, i), i + 2))
    ensures !(1 <= Two(s, i) <= 31) ==> DayAt(s, i).None? || DayAt(s, i).value.end == i + 1
  {
  }

  lemma HourOfTwo(s: string, i: nat)
    requires i + 1 < |s| && IsDigit(s[i]) && IsDigit(s[i + 1])
    ensures Two(s, i) <= 23 ==> HourAt(s, i) == Some(Field(Two(s, i), i + 2))
    ensures Two(s, i) > 23 ==> HourAt(s, i).Some? && HourAt(s, i).value.end == i + 1
  {
  }

  lemma MinuteOfTwo(s: string, i: nat)
    requires i + 1 < |s| && IsDigit(s[i]) && IsDigit(s[i + 1])
    ensures Two(s, i) <= 59 ==> MinuteAt(s, i) == Some(Field(Two(s, i), i + 2))
    ensures Two(s, i) > 59 ==> MinuteAt(s, i).Some? && MinuteAt(s, i).value.end == i + 1
  {
  }

  lemma SecondOfTwo(s: string, i: nat)
    requires i + 1 < |s| && IsDigit(s[i]) && IsDigit(s[i + 1])
    ensures Two(s, i) <= 61 ==> SecondAt(s, i) == Some(Field(Two(s, i), i + 2))
    ensures Two(s, i) > 61 ==> SecondAt(s, i).Some? && SecondAt(s, i).value.end == i + 1
  {
  }

  /** A stamp parses exactly when its digits name a real date-time, and then to that one. */
  lemma {:induction false} StrptimeStamp(s: string)
    requires IsStamp(s)
    ensures Strptime(s) == if Valid(StampFields(s)) then Some(StampFields(s)) else None
  {
    var t := StampFields(s);
    assert IsDigit(s[0]) && IsDigit(s[1]) && IsDigit(s[2]) && IsDigit(s[3]);
    assert YearAt(s, 0) == Some(Field(t.year, 4));
    assert IsDigit(s[5]) && IsDigit(s[6]) && IsDigit(s[8]) && IsDigit(s[9]);
    assert IsDigit(s[11]) && IsDigit(s[12]) && IsDigit(s[14]) && IsDigit(s[15]);
    assert IsDigit(s[17]) && IsDigit(s[18]);
    MonthOfTwo(s, 5);
    if !(1 <= t.month <= 12) {
      return;
    }
    DayOfTwo(s, 8);
    if !(1 <= t.day <= 31) {
      return;
    }
    assert RunEnd(s, 10, Space) == 11 by {
      assert In(s[10], Space);
      assert !In(s[11], Space);
    }
    HourOfTwo(s, 11);
    if t.hour > 23 {
      return;
    }
    MinuteOfTwo(s, 14);
    if t.minute > 59 {
      return;
    }
    SecondOfTwo(s, 17);
  }
}
