/** Day numbers, minute instants, civil dates and the two date formats the delivery plan uses
    ("%d/%m/%Y" and "%d/%m/%Y - %H:%M"), and the catalog date's "%Y-%m-%d". */
module Calendar {
  import opened Wrappers
  import opened Text

  const MinutesPerDay: int := 1440

  /** Days since 1970-01-01 (a Thursday). */
  type Day = int
  /** Minutes since 1970-01-01 00:00. */
  type Instant = int

  function DateOf(t: Instant): Day { t / MinutesPerDay }

  function TimeOf(t: Instant): (m: int)
    ensures 0 <= m < MinutesPerDay
  {
    t % MinutesPerDay
  }

  /** datetime.combine(date, time). */
  function Combine(d: Day, m: int): (t: Instant)
    requires 0 <= m < MinutesPerDay
    ensures DateOf(t) == d && TimeOf(t) == m
  {
    d * MinutesPerDay + m
  }

  lemma CombineSplit(t: Instant)
    ensures Combine(DateOf(t), TimeOf(t)) == t
  {
  }

  /** Instants compare as (date, time) pairs, lexicographically. */
  lemma InstantOrder(a: Instant, b: Instant)
    ensures a < b <==> DateOf(a) < DateOf(b) || (DateOf(a) == DateOf(b) && TimeOf(a) < TimeOf(b))
  {
    CombineSplit(a);
    CombineSplit(b);
  }

  /** date.weekday(): Monday is 0, Sunday is 6. */
  function Weekday(d: Day): (w: int)
    ensures 0 <= w < 7
  {
    (d + 3) % 7
  }

  lemma WeekdayShift(d: Day, k: int)
    ensures Weekday(d + k) == (Weekday(d) + k) % 7
  {
  }

  datatype Date = Date(year: int, month: int, day: int)
  datatype DateTime = DateTime(date: Date, hour: int, minute: int)

  predicate IsLeap(y: int) { y % 4 == 0 && (y % 100 != 0 || y % 400 == 0) }

  function DaysInMonth(y: int, m: int): int
    requires 1 <= m <= 12
  {
    if m == 2 then (if IsLeap(y) then 29 else 28)
    else if m == 4 || m == 6 || m == 9 || m == 11 then 30
    else 31
  }

  /** The dates Python's datetime accepts (MINYEAR 1 to MAXYEAR 9999). */
  predicate ValidDate(dt: Date) {
    1 <= dt.year <= 9999 && 1 <= dt.month <= 12 && 1 <= dt.day <= DaysInMonth(dt.year, dt.month)
  }

  predicate ValidDateTime(x: DateTime) {
    ValidDate(x.date) && 0 <= x.hour < 24 && 0 <= x.minute < 60
  }

  /** The day number of a civil date (days-from-civil in the proleptic Gregorian calendar). */
  function DaysFromCivil(dt: Date): Day {
    var y := if dt.month <= 2 then dt.year - 1 else dt.year;
    var era := y / 400;
    var yoe := y - era * 400;
    var mp := if dt.month > 2 then dt.month - 3 else dt.month + 9;
    var doy := (153 * mp + 2) / 5 + dt.day - 1;
    era * 146097 + yoe * 365 + yoe / 4 - yoe / 100 + doy - 719468
  }

  function ToInstant(x: DateTime): (t: Instant)
    requires ValidDateTime(x)
    ensures DateOf(t) == DaysFromCivil(x.date) && TimeOf(t) == x.hour * 60 + x.minute
  {
    Combine(DaysFromCivil(x.date), x.hour * 60 + x.minute)
  }

  /** strftime("%d/%m/%Y"). */
  function FormatDate(dt: Date): (s: string)
    requires ValidDate(dt)
    ensures |s| == 10
  {
    Pad2(dt.day) + "/" + Pad2(dt.month) + "/" + Pad4(dt.year)
  }

  /** strptime(s, "%d/%m/%Y") on the zero-padded form: None where Python raises ValueError. */
  function ParseDate(s: string): (r: Option<Date>)
    ensures r.Some? ==> ValidDate(r.value)
  {
    if |s| == 10 && s[2] == '/' && s[5] == '/' && AllDigits(s[..2]) && AllDigits(s[3..5]) && AllDigits(s[6..]) then
      var dt := Date(DigitsValue(s[6..]), DigitsValue(s[3..5]), DigitsValue(s[..2]));
      if ValidDate(dt) then Some(dt) else None
    else None
  }

  /** strftime("%d/%m/%Y - %H:%M"). */
  function FormatDateTime(x: DateTime): (s: string)
    requires ValidDateTime(x)
    ensures |s| == 18
  {
    FormatDate(x.date) + " - " + Pad2(x.hour) + ":" + Pad2(x.minute)
  }

  /** strptime(s, "%d/%m/%Y - %H:%M") on the zero-padded form. */
  function ParseDateTime(s: string): (r: Option<DateTime>)
    ensures r.Some? ==> ValidDateTime(r.value)
  {
    if |s| == 18 && s[10..13] == " - " && s[15] == ':' && AllDigits(s[13..15]) && AllDigits(s[16..]) then
      match ParseDate(s[..10])
      case None => None
      case Some(dt) =>
        var x := DateTime(dt, DigitsValue(s[13..15]), DigitsValue(s[16..]));
        if ValidDateTime(x) then Some(x) else None
    else None
  }

  lemma DigitCharValue(c: char)
    requires IsDigit(c)
    ensures DigitChar(DigitValue(c)) == c
  {
  }

  /** Two digits are the zero-padded writing of their own value. */
  lemma Pad2Canonical(s: string)
    requires |s| == 2 && AllDigits(s)
    ensures DigitsValue(s) < 100 && Pad2(DigitsValue(s)) == s
  {
    TwoDigitsValue(s);
    var hi, lo := DigitValue(s[0]), DigitValue(s[1]);
    var n := DigitsValue(s);
    assert n == hi * 10 + lo;
    assert n / 10 == hi && n % 10 == lo;
    DigitCharValue(s[0]);
    DigitCharValue(s[1]);
    assert Pad2(n) == [DigitChar(hi), DigitChar(lo)];
    assert s == [s[0], s[1]];
  }

  lemma Pad4Canonical(s: string)
    requires |s| == 4 && AllDigits(s)
    ensures DigitsValue(s) < 10000 && Pad4(DigitsValue(s)) == s
  {
    var hi, lo := s[..2], s[2..];
    assert s == hi + lo;
    DigitsValueConcat2(hi, lo);
    Pad2Canonical(hi);
    Pad2Canonical(lo);
    var n := DigitsValue(s);
    assert n == DigitsValue(hi) * 100 + DigitsValue(lo);
    assert n / 100 == DigitsValue(hi) && n % 100 == DigitsValue(lo);
  }

  /** Reading back a written date gives the date back. */
  lemma ParseFormatDate(dt: Date)
    requires ValidDate(dt)
    ensures ParseDate(FormatDate(dt)) == Some(dt)
  {
    var s := FormatDate(dt);
    assert s[..2] == Pad2(dt.day) && s[3..5] == Pad2(dt.month) && s[6..] == Pad4(dt.year);
  }

  /** Only the canonical writing of a date parses, so parsing then writing gives the text back. */
  lemma FormatParseDate(s: string)
    requires ParseDate(s).Some?
    ensures FormatDate(ParseDate(s).value) == s
  {
    Pad2Canonical(s[..2]);
    Pad2Canonical(s[3..5]);
    Pad4Canonical(s[6..]);
    var t := FormatDate(ParseDate(s).value);
    assert t[..2] == s[..2] && t[3..5] == s[3..5] && t[6..] == s[6..];
    assert t == t[..2] + [t[2]] + t[3..5] + [t[5]] + t[6..];
    assert s == s[..2] + [s[2]] + s[3..5] + [s[5]] + s[6..];
  }

  lemma ParseFormatDateTime(x: DateTime)
    requires ValidDateTime(x)
    ensures ParseDateTime(FormatDateTime(x)) == Some(x)
  {
    var s := FormatDateTime(x);
    assert s[..10] == FormatDate(x.date);
    ParseFormatDate(x.date);
    assert s[13..15] == Pad2(x.hour) && s[16..] == Pad2(x.minute);
    assert s[10..13] == " - ";
  }

  lemma FormatParseDateTime(s: string)
    requires ParseDateTime(s).Some?
    ensures FormatDateTime(ParseDateTime(s).value) == s
  {
    FormatParseDate(s[..10]);
    Pad2Canonical(s[13..15]);
    Pad2Canonical(s[16..]);
    var t := FormatDateTime(ParseDateTime(s).value);
    assert t[..10] == s[..10] && t[10..13] == s[10..13] && t[13..15] == s[13..15] && t[16..] == s[16..];
    assert t[15] == s[15];
    EqualByParts(t, s);
  }

  /** Two 18-long sequences agreeing on the pieces a date-time is written in are equal. */
  lemma EqualByParts<T>(s: seq<T>, t: seq<T>)
    requires |s| == |t| == 18 && s[..10] == t[..10] && s[10..13] == t[10..13] && s[13..15] == t[13..15]
    requires s[15] == t[15] && s[16..] == t[16..]
    ensures s == t
  {
    forall i | 0 <= i < 18 ensures s[i] == t[i] {
      if i < 10 {
        assert s[..10][i] == s[i] && t[..10][i] == t[i];
      } else if i < 13 {
        assert s[10..13][i - 10] == s[i] && t[10..13][i - 10] == t[i];
      } else if i < 15 {
        assert s[13..15][i - 13] == s[i] && t[13..15][i - 13] == t[i];
      } else if i > 15 {
        assert s[16..][i - 16] == s[i] && t[16..][i - 16] == t[i];
      }
    }
  }

  /** strftime("%Y-%m-%d"), the format of the catalog date. */
  function FormatIsoDate(dt: Date): (s: string)
    requires ValidDate(dt)
    ensures |s| == 10
  {
    Pad4(dt.year) + "-" + Pad2(dt.month) + "-" + Pad2(dt.day)
  }

  /** strptime(s, "%Y-%m-%d") on the zero-padded form: None where Python raises ValueError. */
  function ParseIsoDate(s: string): (r: Option<Date>)
    ensures r.Some? ==> ValidDate(r.value)
  {
    if |s| == 10 && s[4] == '-' && s[7] == '-' && AllDigits(s[..4]) && AllDigits(s[5..7]) && AllDigits(s[8..]) then
      var dt := Date(DigitsValue(s[..4]), DigitsValue(s[5..7]), DigitsValue(s[8..]));
      if ValidDate(dt) then Some(dt) else None
    else None
  }

  /** A catalog date written by save is read back by load unchanged. */
  lemma ParseFormatIsoDate(dt: Date)
    requires ValidDate(dt)
    ensures ParseIsoDate(FormatIsoDate(dt)) == Some(dt)
  {
    var s := FormatIsoDate(dt);
    assert s[..4] == Pad4(dt.year) && s[5..7] == Pad2(dt.month) && s[8..] == Pad2(dt.day);
  }

  /** Only the canonical writing of a catalog date parses. */
  lemma FormatParseIsoDate(s: string)
    requires ParseIsoDate(s).Some?
    ensures FormatIsoDate(ParseIsoDate(s).value) == s
  {
    Pad4Canonical(s[..4]);
    Pad2Canonical(s[5..7]);
    Pad2Canonical(s[8..]);
    var t := FormatIsoDate(ParseIsoDate(s).value);
    assert t[..4] == s[..4] && t[5..7] == s[5..7] && t[8..] == s[8..];
    assert t == t[..4] + [t[4]] + t[5..7] + [t[7]] + t[8..];
    assert s == s[..4] + [s[4]] + s[5..7] + [s[7]] + s[8..];
  }

  /** The characters a written date or date-time is made of. */
  predicate DateChar(c: char) { IsDigit(c) || c == '/' || c == ' ' || c == '-' || c == ':' }

  lemma FormatChars(x: DateTime)
    requires ValidDateTime(x)
    ensures forall c :: c in FormatDate(x.date) ==> DateChar(c)
    ensures forall c :: c in FormatDateTime(x) ==> DateChar(c)
  {
    var d := x.date;
    assert FormatDate(d) == Pad2(d.day) + "/" + Pad2(d.month) + "/" + Pad4(d.year);
    assert FormatDateTime(x) == FormatDate(d) + " - " + Pad2(x.hour) + ":" + Pad2(x.minute);
  }
}
