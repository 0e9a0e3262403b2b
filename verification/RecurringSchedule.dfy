/** SchedulesService.bulkCreate: one lesson on every requested weekday between two dates. Dates are day numbers. */
module RecurringSchedule {
  import opened Common

  /** getDay(): day 0 is 1 January 1970, a Thursday; Sunday is 0. */
  function GetDay(day: int): (w: nat)
    ensures w < 7
  {
    (day + 4) % 7
  }

  /** The numbering of daysOfWeek: 1 = Monday, 7 = Sunday. */
  function DayOfWeek(day: int): (w: nat)
    ensures 1 <= w <= 7
  {
    if GetDay(day) == 0 then 7 else GetDay(day)
  }

  /** The requested dates among the n days from start on. */
  function Requested(start: int, n: nat, daysOfWeek: seq<int>): seq<int> {
    if n == 0 then []
    else
      var day := start + n - 1;
      Requested(start, n - 1, daysOfWeek) + if DayOfWeek(day) in daysOfWeek then [day] else []
  }

  function DaysBetween(start: int, end: int): nat {
    if start <= end then end - start + 1 else 0
  }

  method BulkCreate(startDate: int, endDate: int, daysOfWeek: seq<int>) returns (dates: seq<int>)
    ensures dates == Requested(startDate, DaysBetween(startDate, endDate), daysOfWeek)
    ensures forall d :: d in dates <==> startDate <= d <= endDate && (d + 3) % 7 + 1 in daysOfWeek
    ensures forall i, j :: 0 <= i < j < |dates| ==> dates[i] < dates[j]
  {
    dates := [];
    var current := startDate;
    while current <= endDate
      invariant startDate <= current
      invariant startDate <= endDate ==> current <= endDate + 1
      invariant startDate > endDate ==> current == startDate
      invariant dates == Requested(startDate, current - startDate, daysOfWeek)
      decreases endDate - current
    {
      var dayOfWeek := if GetDay(current) == 0 then 7 else GetDay(current);
      if dayOfWeek in daysOfWeek {
        dates := dates + [current];
      }
      current := current + 1;
    }
    RequestedIsExact(startDate, DaysBetween(startDate, endDate), daysOfWeek);
    forall d ensures DayOfWeek(d) == (d + 3) % 7 + 1 {
      WeekdayMeans(d);
    }
  }

  /** Counted from Thursday, 1 January 1970, which is day 4 of its week; each next day is one further, 1 after 7. */
  lemma WeekdayMeans(day: int)
    ensures DayOfWeek(0) == 4
    ensures DayOfWeek(day) == (day + 3) % 7 + 1
    ensures DayOfWeek(day + 1) == if DayOfWeek(day) == 7 then 1 else DayOfWeek(day) + 1
  {
  }

  /** Exactly the requested dates, strictly increasing (hence without repeats). */
  lemma {:induction false} RequestedIsExact(start: int, n: nat, daysOfWeek: seq<int>)
    ensures forall d :: d in Requested(start, n, daysOfWeek) <==> start <= d < start + n && DayOfWeek(d) in daysOfWeek
    ensures forall i, j :: 0 <= i < j < |Requested(start, n, daysOfWeek)| ==>
              Requested(start, n, daysOfWeek)[i] < Requested(start, n, daysOfWeek)[j]
  {
    if n > 0 {
      RequestedIsExact(start, n - 1, daysOfWeek);
      var before := Requested(start, n - 1, daysOfWeek);
      forall i | 0 <= i < |before| ensures before[i] < start + n - 1 {
        assert before[i] in before;
      }
    }
  }

  // ----- how many -----

  predicate IsWeekday(w: int, daysOfWeek: seq<int>) {
    w in daysOfWeek
  }

  /** The distinct valid weekdays asked for. */
  function Weekdays(daysOfWeek: seq<int>): set<int> {
    WeekdaysUpTo(7, daysOfWeek)
  }

  function Asked(w: int, daysOfWeek: seq<int>): nat {
    if w in daysOfWeek then 1 else 0
  }

  function WeekdaysUpTo(k: nat, daysOfWeek: seq<int>): set<int> {
    set w | 1 <= w <= k && IsWeekday(w, daysOfWeek)
  }

  function AskedUpTo(k: nat, daysOfWeek: seq<int>): nat {
    if k == 0 then 0 else AskedUpTo(k - 1, daysOfWeek) + Asked(k, daysOfWeek)
  }

  lemma {:induction false} CountWeekdays(k: nat, daysOfWeek: seq<int>)
    ensures |WeekdaysUpTo(k, daysOfWeek)| == AskedUpTo(k, daysOfWeek)
  {
    if k == 0 {
      assert WeekdaysUpTo(0, daysOfWeek) == {};
    } else {
      CountWeekdays(k - 1, daysOfWeek);
      assert WeekdaysUpTo(k, daysOfWeek)
          == WeekdaysUpTo(k - 1, daysOfWeek) + if k in daysOfWeek then {k} else {};
    }
  }

  lemma {:induction false} AskedInAll(daysOfWeek: seq<int>)
    ensures |Weekdays(daysOfWeek)|
            == Asked(1, daysOfWeek) + Asked(2, daysOfWeek) + Asked(3, daysOfWeek) + Asked(4, daysOfWeek)
               + Asked(5, daysOfWeek) + Asked(6, daysOfWeek) + Asked(7, daysOfWeek)
  {
    CountWeekdays(7, daysOfWeek);
    assert AskedUpTo(1, daysOfWeek) == AskedUpTo(0, daysOfWeek) + Asked(1, daysOfWeek);
    assert AskedUpTo(3, daysOfWeek) == AskedUpTo(1, daysOfWeek) + Asked(2, daysOfWeek) + Asked(3, daysOfWeek);
    assert AskedUpTo(5, daysOfWeek) == AskedUpTo(3, daysOfWeek) + Asked(4, daysOfWeek) + Asked(5, daysOfWeek);
  }

  lemma OneDay(start: int, n: nat, daysOfWeek: seq<int>)
    ensures |Requested(start, n + 1, daysOfWeek)|
            == |Requested(start, n, daysOfWeek)| + Asked(DayOfWeek(start + n), daysOfWeek)
  {
  }

  /** Any seven days in a row hold each weekday once. */
  lemma {:induction false} OneWeek(start: int, daysOfWeek: seq<int>)
    ensures |Requested(start, 7, daysOfWeek)| == |Weekdays(daysOfWeek)|
  {
    OneDay(start, 0, daysOfWeek);
    OneDay(start, 1, daysOfWeek);
    OneDay(start, 2, daysOfWeek);
    OneDay(start, 3, daysOfWeek);
    OneDay(start, 4, daysOfWeek);
    OneDay(start, 5, daysOfWeek);
    OneDay(start, 6, daysOfWeek);
    AskedInAll(daysOfWeek);
    SevenWeekdays(start, daysOfWeek);
  }

  lemma {:induction false} SevenWeekdays(start: int, daysOfWeek: seq<int>)
    ensures Asked(DayOfWeek(start), daysOfWeek) + Asked(DayOfWeek(start + 1), daysOfWeek)
            + Asked(DayOfWeek(start + 2), daysOfWeek) + Asked(DayOfWeek(start + 3), daysOfWeek)
            + Asked(DayOfWeek(start + 4), daysOfWeek) + Asked(DayOfWeek(start + 5), daysOfWeek)
            + Asked(DayOfWeek(start + 6), daysOfWeek)
            == Asked(1, daysOfWeek) + Asked(2, daysOfWeek) + Asked(3, daysOfWeek) + Asked(4, daysOfWeek)
               + Asked(5, daysOfWeek) + Asked(6, daysOfWeek) + Asked(7, daysOfWeek)
  {
    WeekdayMeans(start);
    WeekdayMeans(start + 1);
    WeekdayMeans(start + 2);
    WeekdayMeans(start + 3);
    WeekdayMeans(start + 4);
    WeekdayMeans(start + 5);
  }

  lemma {:induction false} RequestedSplits(start: int, a: nat, b: nat, daysOfWeek: seq<int>)
    ensures |Requested(start, a + b, daysOfWeek)|
            == |Requested(start, a, daysOfWeek)| + |Requested(start + a, b, daysOfWeek)|
  {
    if b > 0 {
      RequestedSplits(start, a, b - 1, daysOfWeek);
      OneDay(start, a + b - 1, daysOfWeek);
      OneDay(start + a, b - 1, daysOfWeek);
    }
  }

  lemma {:induction false} WholeWeeks(start: int, weeks: nat, daysOfWeek: seq<int>)
    ensures |Requested(start, 7 * weeks, daysOfWeek)| == weeks * |Weekdays(daysOfWeek)|
  {
    if weeks > 0 {
      WholeWeeks(start, weeks - 1, daysOfWeek);
      RequestedSplits(start, 7 * (weeks - 1), 7, daysOfWeek);
      OneWeek(start + 7 * (weeks - 1), daysOfWeek);
      assert weeks * |Weekdays(daysOfWeek)| == (weeks - 1) * |Weekdays(daysOfWeek)| + |Weekdays(daysOfWeek)|;
    }
  }

  /** Over n days with d distinct valid weekdays: at least d * floor(n / 7) and at most d * ceil(n / 7) lessons. */
  lemma {:induction false} LessonCount(start: int, n: nat, daysOfWeek: seq<int>)
    ensures var d := |Weekdays(daysOfWeek)|;
            d * (n / 7) <= |Requested(start, n, daysOfWeek)| <= d * CeilDiv(n, 7)
  {
    var d, q, r := |Weekdays(daysOfWeek)|, n / 7, n % 7;
    RequestedSplits(start, 7 * q, r, daysOfWeek);
    WholeWeeks(start, q, daysOfWeek);
    RequestedSplits(start + 7 * q, r, 7 - r, daysOfWeek);
    OneWeek(start + 7 * q, daysOfWeek);
    RemainderDays(d, q, r, |Requested(start + 7 * q, r, daysOfWeek)|);
  }

  lemma {:induction false} RemainderDays(d: nat, q: nat, r: nat, extra: nat)
    requires r < 7 && extra <= d && (r == 0 ==> extra == 0)
    ensures d * q <= q * d + extra <= d * CeilDiv(7 * q + r, 7)
  {
    assert CeilDiv(7 * q + r, 7) == if r == 0 then q else q + 1;
    assert d * (q + 1) == d * q + d;
  }
}
