/** StatisticController: how many results were made in a week of the
    month, a month or a year, over all public results or over one account's
    results. The current date (`DateTime.Now`) is a parameter. */
module Statistics {
  import opened Common
  import opened Schema

  /** GetWeekOfMonth: the weekday of the first of the month is mapped to
      Monday = 0 .. Sunday = 6, added to the day, divided by 7 (C# division)
      and counted from 1. */
  function WeekOfMonth(d: Date): (w: int)
    ensures WellFormedDate(d) ==> 1 <= w <= 6
  {
    var offset := (if d.firstWeekday == 0 then 7 else d.firstWeekday) - 1;
    TruncDiv(d.day + offset, 7) + 1
  }

  /** The row of the day in a month calendar whose weeks start on Sunday. */
  function CalendarRow(d: Date): int {
    (d.day - 1 + d.firstWeekday) / 7 + 1
  }

  /** Week numbers follow the Sunday-first calendar rows, shifted one row
      down when the month starts on a Sunday. */
  lemma WeekOfMonthIsCalendarRow(d: Date)
    requires WellFormedDate(d)
    ensures WeekOfMonth(d) == CalendarRow(d) + (if d.firstWeekday == 0 then 1 else 0)
  {
  }

  /** Week numbers run from 1 to 6. */
  lemma WeekOfMonthRange(d: Date)
    requires WellFormedDate(d)
    ensures 1 <= WeekOfMonth(d) <= 6
  {
  }

  /** Later days of the same month are never in an earlier week. */
  lemma WeekOfMonthMonotone(d: Date, e: Date)
    requires WellFormedDate(d) && WellFormedDate(e)
    requires d.firstWeekday == e.firstWeekday && d.day <= e.day
    ensures WeekOfMonth(d) <= WeekOfMonth(e)
  {
  }

  /** The first of the month is in week 1, or in week 2 when it is a Sunday. */
  lemma FirstDayWeek(d: Date)
    requires WellFormedDate(d) && d.day == 1
    ensures WeekOfMonth(d) == if d.firstWeekday == 0 then 2 else 1
  {
  }

  /** When the month starts on a Sunday no day is in week 1. */
  lemma SundayStartSkipsWeekOne(d: Date)
    requires WellFormedDate(d) && d.firstWeekday == 0
    ensures WeekOfMonth(d) >= 2
  {
  }

  /** A month starting on a Wednesday puts day 1 in week 1 and day 6 in week 2. */
  lemma WednesdayStartExample(y: int, m: int)
    requires 1 <= m <= 12
    ensures WeekOfMonth(Date(y, m, 1, 3)) == 1 && WeekOfMonth(Date(y, m, 6, 3)) == 2
  {
  }

  /** ValidTimeFrame: the three time frames the statistics accept. The
      comparison is ordinal, so only the lower-case spellings pass. */
  predicate ValidTimeFrame(time: string): (b: bool)
    ensures b ==> |time| >= 4 && forall i :: 0 <= i < |time| ==> 'a' <= time[i] <= 'z'
  {
    time in ["week", "month", "year"]
  }

  /** The order of a time frame: the given one, or the current week, month
      or year; rejected when out of range (weeks 1..5, months 1..12, years
      2024 up to the current year). */
  function ResolveOrder(time: string, order: Option<int>, now: Date): (r: Response<int>)
    requires ValidTimeFrame(time)
    ensures r.Ok? || r == BadRequest
    ensures r.Ok? && time == "week" ==> 1 <= r.value <= 5
    ensures r.Ok? && time == "month" ==> 1 <= r.value <= 12
    ensures r.Ok? && time == "year" ==> 2024 <= r.value <= now.year
    ensures order.Some? && r.Ok? ==> r.value == order.value
  {
    if time == "week" then
      var o := if order.None? then WeekOfMonth(now) else order.value;
      if o > 5 || o < 1 then BadRequest else Ok(o)
    else if time == "month" then
      var o := if order.None? then now.month else order.value;
      if o > 12 || o < 1 then BadRequest else Ok(o)
    else
      var o := if order.None? then now.year else order.value;
      if o > now.year || o < 2024 then BadRequest else Ok(o)
  }

  /** A given order is accepted exactly when it lies in its frame's range. */
  lemma GivenOrderAcceptedIff(time: string, o: int, now: Date)
    requires ValidTimeFrame(time)
    ensures ResolveOrder(time, Some(o), now).Ok? <==>
      (time == "week" && 1 <= o <= 5) || (time == "month" && 1 <= o <= 12) ||
      (time == "year" && 2024 <= o <= now.year)
  {
  }

  /** An absent order means the current period, accepted whenever the
      current date is in range. */
  lemma DefaultOrderIsNow(time: string, now: Date)
    requires ValidTimeFrame(time) && WellFormedDate(now)
    ensures time == "month" ==> ResolveOrder(time, None, now) == Ok(now.month)
    ensures time == "year" && now.year >= 2024 ==> ResolveOrder(time, None, now) == Ok(now.year)
    ensures time == "week" ==>
      (ResolveOrder(time, None, now) == if WeekOfMonth(now) <= 5 then Ok(WeekOfMonth(now)) else BadRequest)
  {
    WeekOfMonthRange(now);
  }

  /** The window of a time frame: only the week of the month, only the
      month or only the year is compared. */
  predicate InWindow(time: string, order: int, d: Date) {
    if time == "week" then WeekOfMonth(d) == order
    else if time == "month" then d.month == order
    else d.year == order
  }

  /** Which results a statistic looks at. */
  datatype Scope = PublicResults | AccountResults(accountId: int)

  predicate InScope(scope: Scope, r: Result) {
    match scope
    case PublicResults => r.testAccess == Public
    case AccountResults(id) => r.accountId == id
  }

  predicate Taken(scope: Scope, time: string, order: int, r: Result) {
    InScope(scope, r) && InWindow(time, order, r.dateMake)
  }

  function TakenBy(scope: Scope, time: string, order: int): Result -> bool {
    (r: Result) => Taken(scope, time, order, r)
  }

  function ScopeOf(scope: Scope): Result -> bool {
    (r: Result) => InScope(scope, r)
  }

  /** The `foreach` of the week branch: count the results of the scope in that week. */
  method CountWeek(results: seq<Result>, scope: Scope, order: int) returns (count: nat)
    ensures count == CountWhere(results, TakenBy(scope, "week", order))
  {
    count := 0;
    for i := 0 to |results|
      invariant count == CountWhere(results[..i], TakenBy(scope, "week", order))
    {
      assert results[..i + 1][..i] == results[..i];
      if InScope(scope, results[i]) && WeekOfMonth(results[i].dateMake) == order {
        count := count + 1;
      }
    }
    assert results[..|results|] == results;
  }

  /** The `switch` shared by both statistics: resolve the order, then count. */
  method CountTaken(db: Db, scope: Scope, time: string, order: Option<int>, now: Date) returns (r: Response<int>)
    requires ValidTimeFrame(time)
    ensures ResolveOrder(time, order, now) == BadRequest ==> r == BadRequest
    ensures ResolveOrder(time, order, now).Ok? ==>
      r == Ok(CountWhere(db.results, TakenBy(scope, time, ResolveOrder(time, order, now).value)))
  {
    var resolved := ResolveOrder(time, order, now);
    if !resolved.Ok? {
      return BadRequest;
    }
    var o := resolved.value;
    if time == "week" {
      var count := CountWeek(db.results, scope, o);
      r := Ok(count);
    } else {
      r := Ok(CountWhere(db.results, TakenBy(scope, time, o)));
    }
  }

  /** StatisticController.GetTestTaken: public results only. */
  method GetTestTaken(db: Db, time: string, order: Option<int>, now: Date) returns (r: Response<int>)
    ensures !ValidTimeFrame(time) ==> r == BadRequest
    ensures ValidTimeFrame(time) && ResolveOrder(time, order, now) == BadRequest ==> r == BadRequest
    ensures ValidTimeFrame(time) && ResolveOrder(time, order, now).Ok? ==>
      r == Ok(CountWhere(db.results, TakenBy(PublicResults, time, ResolveOrder(time, order, now).value)))
  {
    if !ValidTimeFrame(time) {
      return BadRequest;
    }
    r := CountTaken(db, PublicResults, time, order, now);
  }

  /** StatisticController.GetUserTestTaken: that account's results; all of
      them when no time frame is given. */
  method GetUserTestTaken(db: Db, id: int, time: Option<string>, order: Option<int>, now: Date)
    returns (r: Response<int>)
    ensures id !in db.accounts ==> r == NotFound
    ensures id in db.accounts && time.None? ==> r == Ok(CountWhere(db.results, ScopeOf(AccountResults(id))))
    ensures id in db.accounts && time.Some? && !ValidTimeFrame(time.value) ==> r == BadRequest
    ensures id in db.accounts && time.Some? && ValidTimeFrame(time.value) ==>
      (ResolveOrder(time.value, order, now) == BadRequest ==> r == BadRequest) &&
      (ResolveOrder(time.value, order, now).Ok? ==>
        r == Ok(CountWhere(db.results, TakenBy(AccountResults(id), time.value, ResolveOrder(time.value, order, now).value))))
  {
    if id !in db.accounts {
      return NotFound;
    }
    if time.None? {
      return Ok(CountWhere(db.results, ScopeOf(AccountResults(id))));
    }
    if !ValidTimeFrame(time.value) {
      return BadRequest;
    }
    r := CountTaken(db, AccountResults(id), time.value, order, now);
  }

  /** A result outside the scope never changes a count. */
  lemma OutOfScopeNotCounted(results: seq<Result>, x: Result, scope: Scope, time: string, order: int)
    requires !InScope(scope, x)
    ensures CountWhere(results + [x], TakenBy(scope, time, order)) == CountWhere(results, TakenBy(scope, time, order))
  {
    CountWhereAppend(results, x, TakenBy(scope, time, order));
  }

  /** A windowed count never exceeds the count of the whole scope. */
  lemma {:induction false} WindowWithinScope(results: seq<Result>, scope: Scope, time: string, order: int)
    ensures CountWhere(results, TakenBy(scope, time, order)) <= CountWhere(results, ScopeOf(scope))
  {
    if results != [] {
      WindowWithinScope(results[..|results| - 1], scope, time, order);
    }
  }

  /** The month window ignores the year, and the week window ignores the
      month and the year: only the week of the month is compared. */
  lemma WindowsIgnoreTheRestOfTheDate(d: Date, year: int, month: int, order: int)
    ensures InWindow("month", order, d) == InWindow("month", order, d.(year := year))
    ensures InWindow("week", order, d) == InWindow("week", order, d.(year := year, month := month))
  {
  }
}
