/** The order deadline and the delivery date (levata): the next-weekday rule and the delivery plan
    downloaded from the distributor's site (tabacchi/preferencesTabacchi.py). */
module Deadline {
  import opened Calendar

  /** One row of the delivery plan: delivery date, order deadline, and four text fields. */
  datatype PlanRow = PlanRow(consegna: Date, dataLimite: DateTime, ordine: string, stato: string,
                             canale: string, tipo: string)

  predicate ValidRow(row: PlanRow) { ValidDate(row.consegna) && ValidDateTime(row.dataLimite) }

  predicate ValidPlan(plan: seq<PlanRow>) { forall k :: 0 <= k < |plan| ==> ValidRow(plan[k]) }

  /** The settings the deadline depends on, with their defaults 3, 2 and 11. */
  datatype Settings = Settings(pianoConsegneDaSito: bool, giornoLevata: int, ggPerOrdine: int, oraInvio: int)

  const DefaultSettings := Settings(false, 3, 2, 11)

  /** nextWeekday(d, w, t): the weekday w at time t of the week that starts on d's date,
      or of the following week when that instant is not after d. */
  function NextWeekday(d: Instant, w: int, t: int): (r: Instant)
    requires 0 <= t < MinutesPerDay
    ensures TimeOf(r) == t
    ensures w >= 0 ==> r > d
    ensures 0 <= w < 7 ==> Weekday(DateOf(r)) == w && 0 <= DateOf(r) - DateOf(d) <= 7
  {
    var ahead := w - Weekday(DateOf(d));
    var ahead' := if ahead < 0 || (ahead == 0 && TimeOf(d) >= t) then ahead + 7 else ahead;
    CombineSplit(d);
    Combine(DateOf(d) + ahead', t)
  }

  /** No instant after d on weekday w at time t comes before nextWeekday's answer. */
  lemma NextWeekdayEarliest(d: Instant, w: int, t: int, x: Instant)
    requires 0 <= t < MinutesPerDay && 0 <= w < 7
    requires x > d && Weekday(DateOf(x)) == w && TimeOf(x) == t
    ensures NextWeekday(d, w, t) <= x
  {
    var r := NextWeekday(d, w, t);
    InstantOrder(d, x);
    InstantOrder(r, x);
    // x's date is at most seven days after d's and on weekday w, as r's is: a gap between them
    // would have to be a positive multiple of 7 below 7.
    WeekdayShift(DateOf(x), DateOf(r) - DateOf(x));
    CombineSplit(d);
    CombineSplit(x);
    assert DateOf(r) <= DateOf(x);
  }

  /** The first example of the documentation: Friday 12 December 2014 09:00, Thursday -> 18 December 00:00. */
  lemma NextWeekdayFridayToThursday()
    ensures NextWeekday(Combine(DaysFromCivil(Date(2014, 12, 12)), 9 * 60), 3, 0)
            == Combine(DaysFromCivil(Date(2014, 12, 18)), 0)
  {
    DayNumbers();
    assert 16416 + 3 == 7 * 2345 + 4;
    ExampleStep(16416, 540, 3, 0, 16422);
  }

  /** The second example: Tuesday 3 May 2016 10:27, Tuesday at 11:00 -> the same day at 11:00. */
  lemma NextWeekdaySameDay()
    ensures NextWeekday(Combine(DaysFromCivil(Date(2016, 5, 3)), 10 * 60 + 27), 1, 11 * 60)
            == Combine(DaysFromCivil(Date(2016, 5, 3)), 11 * 60)
  {
    DayNumbers();
    assert 16924 + 3 == 7 * 2418 + 1;
    ExampleStep(16924, 627, 1, 660, 16924);
  }

  /** The day numbers of the examples' dates, counted from 1 January 1970. */
  lemma DayNumbers()
    ensures DaysFromCivil(Date(2014, 12, 12)) == 16416
    ensures DaysFromCivil(Date(2014, 12, 18)) == 16422
    ensures DaysFromCivil(Date(2016, 5, 3)) == 16924
  {
    // Both years are in era 5 (years 2000 to 2399), 14 and 16 years into it.
    assert 2014 / 400 == 5 && 2016 / 400 == 5;
    assert 14 / 4 == 3 && 14 / 100 == 0 && 16 / 4 == 4 && 16 / 100 == 0;
    // December is month 9 and May month 2 of the year counted from March.
    assert (153 * 9 + 2) / 5 == 275 && (153 * 2 + 2) / 5 == 61;
  }

  /** nextWeekday from day dd at time m, for weekday w at time t, lands on day e. */
  lemma ExampleStep(dd: Day, m: int, w: int, t: int, e: Day)
    requires 0 <= m < MinutesPerDay && 0 <= t < MinutesPerDay
    requires var ahead := w - (dd + 3) % 7;
             e == dd + (if ahead < 0 || (ahead == 0 && m >= t) then ahead + 7 else ahead)
    ensures NextWeekday(Combine(dd, m), w, t) == Combine(e, t)
  {
  }

  /** The index of the first plan row whose deadline is after data, or -1. */
  function FirstOpenRow(data: Instant, plan: seq<PlanRow>): (i: int)
    requires ValidPlan(plan)
    ensures -1 <= i < |plan|
    ensures i >= 0 ==> data < ToInstant(plan[i].dataLimite)
    ensures forall j :: 0 <= j < |plan| && (i == -1 || j < i) ==> ToInstant(plan[j].dataLimite) <= data
  {
    if |plan| == 0 then -1
    else if data < ToInstant(plan[0].dataLimite) then 0
    else
      var k := FirstOpenRow(data, plan[1..]);
      assert forall j :: 1 <= j < |plan| ==> plan[j] == plan[1..][j - 1];
      if k == -1 then -1 else k + 1
  }

  /** The weekday by which to order when no delivery plan applies. */
  function GiornoOrdine(s: Settings): (w: int)
    ensures 0 <= w < 5
  {
    (s.giornoLevata - s.ggPerOrdine) % 5
  }

  /** The deadline of the weekday rule: the next GiornoOrdine at oraInvio:00. */
  function FallbackDeadline(data: Instant, s: Settings): Instant
    requires 0 <= s.oraInvio < 24
  {
    NextWeekday(data, GiornoOrdine(s), s.oraInvio * 60)
  }

  function FallbackLevata(data: Instant, s: Settings): Day
    requires 0 <= s.oraInvio < 24
  {
    DateOf(NextWeekday(FallbackDeadline(data, s), s.giornoLevata, 0))
  }

  /** dataLimiteOrdine(data): the (deadline, levata) pair. With the site plan enabled the first row whose
      deadline lies after data decides; otherwise, or when no row does, the weekday rule. */
  function DataLimiteOrdine(data: Instant, s: Settings, plan: seq<PlanRow>): (r: (Instant, Day))
    requires 0 <= s.oraInvio < 24 && ValidPlan(plan)
    ensures s.pianoConsegneDaSito && FirstOpenRow(data, plan) >= 0 ==>
              var row := plan[FirstOpenRow(data, plan)];
              r == (ToInstant(row.dataLimite), DaysFromCivil(row.consegna))
    ensures !s.pianoConsegneDaSito || FirstOpenRow(data, plan) == -1 ==>
              r == (FallbackDeadline(data, s), FallbackLevata(data, s))
  {
    var i := if s.pianoConsegneDaSito then FirstOpenRow(data, plan) else -1;
    if i >= 0 then (ToInstant(plan[i].dataLimite), DaysFromCivil(plan[i].consegna))
    else (FallbackDeadline(data, s), FallbackLevata(data, s))
  }

  /** Whatever the plan, the deadline handed back is after the reference instant. */
  lemma DeadlineAfterReference(data: Instant, s: Settings, plan: seq<PlanRow>)
    requires 0 <= s.oraInvio < 24 && ValidPlan(plan)
    ensures DataLimiteOrdine(data, s, plan).0 > data
  {
  }

  /** The weekday rule's deadline: on weekday (giornoLevata - ggPerOrdine) mod 5 at oraInvio:00, after data,
      and the earliest such instant. */
  lemma {:induction false} FallbackDeadlineShape(data: Instant, s: Settings, x: Instant)
    requires 0 <= s.oraInvio < 24
    ensures var d := FallbackDeadline(data, s);
            d > data && Weekday(DateOf(d)) == GiornoOrdine(s) && TimeOf(d) == s.oraInvio * 60
            && DateOf(d) - DateOf(data) <= 7
    ensures x > data && Weekday(DateOf(x)) == GiornoOrdine(s) && TimeOf(x) == s.oraInvio * 60 ==>
              FallbackDeadline(data, s) <= x
  {
    if x > data && Weekday(DateOf(x)) == GiornoOrdine(s) && TimeOf(x) == s.oraInvio * 60 {
      NextWeekdayEarliest(data, GiornoOrdine(s), s.oraInvio * 60, x);
    }
  }

  /** The weekday rule's levata falls on giornoLevata, one to seven days after the deadline's date:
      never on the deadline's own day, because every time of day is at or after 00:00. */
  lemma FallbackLevataShape(data: Instant, s: Settings)
    requires 0 <= s.oraInvio < 24 && 0 <= s.giornoLevata < 7
    ensures var l := FallbackLevata(data, s);
            Weekday(l) == s.giornoLevata && 1 <= l - DateOf(FallbackDeadline(data, s)) <= 7
  {
    var d := FallbackDeadline(data, s);
    var r := NextWeekday(d, s.giornoLevata, 0);
    InstantOrder(d, r);
  }
}
