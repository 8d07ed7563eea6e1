/** Italian public holidays (tabacchi/utility.py:44-72): a fixed set of (month, day) pairs, Easter by the
    Gregorian computus, and Easter Monday. Python's // and % with a positive divisor floor, which is
    what Dafny's / and % do for a positive divisor, so the integer formula is written as it stands. */
module Holidays {
  import opened Calendar

  /** The fixed holidays as (month, day), with the patron saint of Florence (24 June). */
  const ItalianHolidays: set<(int, int)> :=
    {(1, 1), (1, 6), (4, 25), (5, 1), (6, 2), (6, 24), (8, 15), (11, 1), (12, 8), (12, 25), (12, 26)}

  /** The quantity f of the computus, from which month = f / 31 and day = f % 31 + 1. */
  function EasterF(year: int): (f: int)
    ensures 114 <= f <= 148
  {
    var a := year % 19;
    var b := year / 100;
    var c := year % 100;
    var d := (19 * a + b - b / 4 - ((b - (b + 8) / 25 + 1) / 3) + 15) % 30;
    var e := (32 + 2 * (b % 4) + 2 * (c / 4) - d - (c % 4)) % 7;
    var q := (a + 11 * d + 22 * e) / 451;
    assert 0 <= q <= 1;
    assert q == 1 ==> d >= 28;
    assert q == 0 ==> d + e <= 34;
    d + e - 7 * q + 114
  }

  /** __easter(year): (month, day) of Easter Sunday. */
  function Easter(year: int): (r: (int, int))
    ensures (r.0 == 3 && 22 <= r.1 <= 31) || (r.0 == 4 && 1 <= r.1 <= 25)
    ensures ValidDate(Date(year, r.0, r.1)) || !(1 <= year <= 9999)
  {
    var f := EasterF(year);
    (f / 31, f % 31 + 1)
  }

  /** Easter Monday as italian_holiday computes it: day % 31 + 1, carrying one month when day / 31 is 1. */
  function EasterMonday(year: int): (r: (int, int))
    ensures var (me, de) := Easter(year);
            if de == 31 then r == (me + 1, 1) else r == (me, de + 1)
  {
    var (me, de) := Easter(year);
    (me + de / 31, de % 31 + 1)
  }

  /** Easter Monday is the calendar day after Easter. */
  lemma EasterMondayIsNextDay(year: int)
    requires 1 <= year <= 9999
    ensures var (mm, dm) := EasterMonday(year);
            var (me, de) := Easter(year);
            ValidDate(Date(year, mm, dm))
            && DaysFromCivil(Date(year, mm, dm)) == DaysFromCivil(Date(year, me, de)) + 1
  {
    var (me, de) := Easter(year);
    if de == 31 {
      MarchEnd(year);
    } else {
      NextInMonth(year, me, de);
    }
  }

  /** In March or April the next day of the same month is the next day number. */
  lemma NextInMonth(year: int, m: int, d: int)
    requires 3 <= m <= 4
    ensures DaysFromCivil(Date(year, m, d + 1)) == DaysFromCivil(Date(year, m, d)) + 1
  {
  }

  /** 1 April follows 31 March. */
  lemma MarchEnd(year: int)
    ensures DaysFromCivil(Date(year, 4, 1)) == DaysFromCivil(Date(year, 3, 31)) + 1
  {
  }

  /** italian_holiday(data). */
  function ItalianHoliday(dt: Date): (h: bool)
    ensures h <==> (dt.month, dt.day) in ItalianHolidays
                   || (dt.month, dt.day) == Easter(dt.year) || (dt.month, dt.day) == EasterMonday(dt.year)
  {
    var (m, d) := (dt.month, dt.day);
    if (m, d) in ItalianHolidays then true
    else
      var (me, de) := Easter(dt.year);
      var dem := de % 31 + 1;
      var mem := me + de / 31;
      (m == me && d == de) || (m == mem && d == dem)
  }

  /** Easter of 2024 fell on 31 March, so its Monday was 1 April: the carry into the next month. */
  lemma Easter2024()
    ensures Easter(2024) == (3, 31) && EasterMonday(2024) == (4, 1)
  {
    assert 2024 % 19 == 10 && 2024 / 100 == 20 && 2024 % 100 == 24;
    assert (19 * 10 + 20 - 20 / 4 - ((20 - (20 + 8) / 25 + 1) / 3) + 15) % 30 == 4;
    assert (32 + 2 * (20 % 4) + 2 * (24 / 4) - 4 - (24 % 4)) % 7 == 5;
    assert EasterF(2024) == 123;
  }

  /** So 1 April 2024 was a holiday and 2 April 2024 was not. */
  lemma Holidays2024()
    ensures ItalianHoliday(Date(2024, 4, 1)) && !ItalianHoliday(Date(2024, 4, 2))
  {
    Easter2024();
  }

  /** Easter of 2016 fell on 27 March. */
  lemma Easter2016()
    ensures Easter(2016) == (3, 27) && EasterMonday(2016) == (3, 28)
  {
    assert 2016 % 19 == 2 && 2016 / 100 == 20 && 2016 % 100 == 16;
    assert (19 * 2 + 20 - 20 / 4 - ((20 - (20 + 8) / 25 + 1) / 3) + 15) % 30 == 2;
    assert (32 + 2 * (20 % 4) + 2 * (16 / 4) - 2 - (16 % 4)) % 7 == 3;
    assert EasterF(2016) == 119;
  }
}
