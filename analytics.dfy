/** The daily and weekly analytics of app/TodayPage.jsx: the seven-day
    `weeklySummary` loop, today's count, the floored goal, the completion rate, the
    weekly total and goal, and the goal field's input coercion. "Now" is a
    parameter, and the loop's days are UTC day numbers counted back from it. */
module Analytics {
  import opened Maybe
  import opened Strings
  import opened DateKeys
  import opened Tasks

  /** `t.createdAt || today`: a task without a creation time counts as created now. */
  function CreatedOrNow(t: Task, now: Time): Time {
    t.createdAt.GetOr(now)
  }

  /** The test in the `tasks.filter` calls: done, and created on the day with this key. */
  predicate CompletedOn(t: Task, key: string, now: Time) {
    t.done && DateKey(CreatedOrNow(t, now)) == key
  }

  /** `tasks.filter((t) => t.done && getDateKey(t.createdAt || today) === key).length`. */
  function CountCompleted(tasks: seq<Task>, key: string, now: Time): nat {
    if tasks == [] then 0
    else CountCompleted(tasks[..|tasks| - 1], key, now) + (if CompletedOn(tasks[|tasks| - 1], key, now) then 1 else 0)
  }

  /** The number of done tasks. */
  function CountDone(tasks: seq<Task>): nat {
    if tasks == [] then 0
    else CountDone(tasks[..|tasks| - 1]) + (if tasks[|tasks| - 1].done then 1 else 0)
  }

  /** `Math.min(100, completed * 20)`: a 0 to 100 heat value that saturates at five
      completions, whatever the goal. */
  function Intensity(completed: nat): (r: int)
    ensures 0 <= r <= 100
    ensures r == 100 <==> completed >= 5
    ensures completed < 5 ==> r == 20 * completed
  {
    if 100 < completed * 20 then 100 else completed * 20
  }

  /** An entry's label: "Today", or the locale's short weekday name of that day, kept
      opaque here. */
  datatype Label = TodayLabel | Weekday(day: int)

  /** One element of `weeklySummary`: `{ dateKey, label, completed, intensity }`. */
  datatype DaySummary = DaySummary(dateKey: string, dayLabel: Label, completed: nat, intensity: int)

  /** The day number `offset` days before now's: what `d.setDate(today.getDate() -
      offset)` makes of a copy of now. */
  function DayBefore(now: Time, offset: int): int {
    DayOf(now) - offset
  }

  /** The entry for the day `offset` days before now. */
  function Entry(tasks: seq<Task>, now: Time, offset: int): (e: DaySummary)
    ensures e.dayLabel == TodayLabel <==> offset == 0
    ensures e.completed <= CountDone(tasks) && 0 <= e.intensity <= 100
    ensures e.intensity == Intensity(e.completed)
  {
    var day := DayBefore(now, offset);
    var key := KeyOfDay(day);
    var completed := CountCompleted(tasks, key, now);
    CountCompletedAtMostDone(tasks, key, now);
    DaySummary(key, if offset == 0 then TodayLabel else Weekday(day), completed, Intensity(completed))
  }

  /** The `useMemo` loop that builds `weeklySummary`: for `offset` from 6 down to 0 it
      counts the day's completed tasks and pushes one entry, so the summary holds the
      seven days ending today, oldest first. */
  method BuildWeeklySummary(tasks: seq<Task>, now: Time) returns (arr: seq<DaySummary>)
    ensures IsWeek(arr, tasks, now)
  {
    ghost var week := WeekOf(tasks, now);
    arr := [];
    var offset := 6;
    while offset >= 0
      invariant -1 <= offset <= 6
      invariant arr == week[..6 - offset]
    {
      var day := DayBefore(now, offset);
      var dateKey := KeyOfDay(day);
      var dayLabel := if offset == 0 then TodayLabel else Weekday(day);
      var completedCount := CountCompleted(tasks, dateKey, now);
      var intensity := Intensity(completedCount);
      assert DaySummary(dateKey, dayLabel, completedCount, intensity) == week[6 - offset];
      PushSlice(week, 6 - offset);
      arr := arr + [DaySummary(dateKey, dayLabel, completedCount, intensity)];
      offset := offset - 1;
    }
    assert arr == week;
  }

  /** The seven entries of the week ending today, oldest first. */
  function WeekOf(tasks: seq<Task>, now: Time): (week: seq<DaySummary>)
    ensures |week| == 7
    ensures forall i :: 0 <= i < 7 ==> week[i] == Entry(tasks, now, 6 - i)
  {
    seq(7, i => Entry(tasks, now, 6 - i))
  }

  /** Pushing the next element of a sequence onto a prefix of it gives the next prefix. */
  lemma PushSlice(week: seq<DaySummary>, k: nat)
    requires k < |week|
    ensures week[..k] + [week[k]] == week[..k + 1]
  {
  }

  /** `summary` is the week ending today: seven entries, entry `i` for the day `6 - i`
      days back. */
  predicate IsWeek(summary: seq<DaySummary>, tasks: seq<Task>, now: Time) {
    |summary| == 7 && forall i :: 0 <= i < 7 ==> summary[i] == Entry(tasks, now, 6 - i)
  }

  /** `completedToday`: the done tasks whose key is today's. */
  function CompletedToday(tasks: seq<Task>, now: Time): (n: nat)
    ensures n == Entry(tasks, now, 0).completed
    ensures n <= CountDone(tasks)
  {
    assert DayBefore(now, 0) == DayOf(now);
    CountCompletedAtMostDone(tasks, DateKey(now), now);
    CountCompleted(tasks, DateKey(now), now)
  }

  /** `weeklySummary.reduce((sum, d) => sum + d.completed, 0)`: no entry counts more
      than the total, and an empty summary totals 0. */
  function TotalCompleted(summary: seq<DaySummary>): (total: nat)
    ensures forall i :: 0 <= i < |summary| ==> summary[i].completed <= total
    ensures summary == [] ==> total == 0
  {
    if summary == [] then 0
    else TotalCompleted(summary[..|summary| - 1]) + summary[|summary| - 1].completed
  }

  /** `dailyGoal > 0 ? dailyGoal : 1`: the goal is never below one, and a positive goal
      is used as it is. */
  function SafeGoal(dailyGoal: int): (g: int)
    ensures g >= 1
    ensures dailyGoal > 0 ==> g == dailyGoal
    ensures dailyGoal <= 0 ==> g == 1
  {
    if dailyGoal > 0 then dailyGoal else 1
  }

  /** `Math.round((c / g) * 100)` on exact rationals: the integer nearest to `100c/g`,
      halves rounded up. */
  function RoundedPercent(c: int, g: int): (r: int)
    requires g >= 1
    ensures 2 * g * r - g <= 200 * c < 2 * g * r + g
  {
    (200 * c + g) / (2 * g)
  }

  /** `Math.min(100, Math.round((completedToday / safeGoal) * 100))`. */
  function CompletionRate(completed: int, safeGoal: int): (r: int)
    requires safeGoal >= 1
    ensures r <= 100
    ensures RoundedPercent(completed, safeGoal) < 100 ==> r == RoundedPercent(completed, safeGoal)
    ensures RoundedPercent(completed, safeGoal) >= 100 ==> r == 100
    ensures completed >= 0 ==> r >= 0
    ensures completed >= safeGoal ==> r == 100
  {
    var p := RoundedPercent(completed, safeGoal);
    RoundedPercentBounds(completed, safeGoal);
    if p < 100 then p else 100
  }

  lemma ScaleLe(g: int, a: int, b: int)
    requires g >= 0 && a <= b
    ensures g * a <= g * b
  {
    assert g * b - g * a == g * (b - a);
  }

  /** Nothing done rounds to 0, something done to at least 0, and reaching the goal to
      at least 100. */
  lemma RoundedPercentBounds(c: int, g: int)
    requires g >= 1
    ensures c >= 0 ==> RoundedPercent(c, g) >= 0
    ensures c == 0 ==> RoundedPercent(c, g) == 0
    ensures c >= g ==> RoundedPercent(c, g) >= 100
  {
    var p := RoundedPercent(c, g);
    if c >= 0 && p <= -1 {
      ScaleLe(2 * g, p, -1);
    }
    if c == 0 && p >= 1 {
      ScaleLe(2 * g, 1, p);
    }
    if c >= g && p <= 99 {
      ScaleLe(2 * g, p, 99);
    }
  }

  /** Rounding keeps the order of the counts. */
  lemma RoundedPercentMonotone(a: int, b: int, g: int)
    requires g >= 1 && a <= b
    ensures RoundedPercent(a, g) <= RoundedPercent(b, g)
  {
    var ra := RoundedPercent(a, g);
    var rb := RoundedPercent(b, g);
    if ra > rb {
      ScaleLe(2 * g, rb + 1, ra);
    }
  }

  /** Completing more tasks never lowers the completion rate. */
  lemma CompletionRateMonotone(a: int, b: int, safeGoal: int)
    requires safeGoal >= 1 && a <= b
    ensures CompletionRate(a, safeGoal) <= CompletionRate(b, safeGoal)
  {
    RoundedPercentMonotone(a, b, safeGoal);
  }

  /** The figures the page derives from the task list and the goal. */
  datatype Stats = Stats(completedToday: nat, safeGoal: int, completionRateToday: int,
                         totalCompletedWeek: nat, weeklyGoal: int, maxForBars: int)

  /** `completedToday`, `safeGoal`, `completionRateToday`, `totalCompletedWeek`,
      `weeklyGoal = safeGoal * 7` and `maxForBars = safeGoal`. */
  function StatsOf(tasks: seq<Task>, dailyGoal: int, now: Time, summary: seq<DaySummary>): (stats: Stats)
    ensures stats.completedToday == Entry(tasks, now, 0).completed
    ensures stats.totalCompletedWeek == TotalCompleted(summary)
    ensures stats.safeGoal >= 1 && (dailyGoal > 0 ==> stats.safeGoal == dailyGoal)
    ensures stats.safeGoal == SafeGoal(dailyGoal)
    ensures stats.completionRateToday == CompletionRate(stats.completedToday, stats.safeGoal)
    ensures 0 <= stats.completionRateToday <= 100
    ensures stats.completedToday >= stats.safeGoal ==> stats.completionRateToday == 100
    ensures stats.weeklyGoal == 7 * stats.safeGoal && stats.maxForBars == stats.safeGoal
  {
    var done := CompletedToday(tasks, now);
    var goal := SafeGoal(dailyGoal);
    Stats(done, goal, CompletionRate(done, goal), TotalCompleted(summary), goal * 7, goal)
  }

  /** One render of the analytics: the weekly loop, then the figures over its result.
      For a week of four-digit years the weekly total counts the done tasks created
      in those seven days, so it never exceeds the number of done tasks. */
  method ComputeAnalytics(tasks: seq<Task>, dailyGoal: int, now: Time) returns (summary: seq<DaySummary>, stats: Stats)
    ensures IsWeek(summary, tasks, now)
    ensures stats == StatsOf(tasks, dailyGoal, now, summary)
    ensures stats.completedToday == summary[6].completed
    ensures stats.safeGoal >= 1 && 0 <= stats.completionRateToday <= 100
    ensures stats.weeklyGoal == 7 * stats.safeGoal && stats.maxForBars == stats.safeGoal
    ensures FirstDay + 6 <= DayOf(now) <= LastDay ==>
      stats.totalCompletedWeek == WeekDayTotal(tasks, now, 7) && stats.totalCompletedWeek <= CountDone(tasks)
  {
    summary := BuildWeeklySummary(tasks, now);
    stats := StatsOf(tasks, dailyGoal, now, summary);
    CompletedTodayIsLastEntry(summary, tasks, now);
    if FirstDay + 6 <= DayOf(now) <= LastDay {
      assert summary[..7] == summary;
      TotalIsWeekDayTotal(summary, tasks, now, 7);
      WeeklyTotalAtMostDone(summary, tasks, now);
    }
  }

  lemma TotalOfPrefix(s: seq<DaySummary>, n: nat)
    requires n < |s|
    ensures TotalCompleted(s[..n + 1]) == TotalCompleted(s[..n]) + s[n].completed
  {
    assert s[..n + 1][..n] == s[..n];
  }

  /** The goal field's `onChangeText`: `parseInt(txt, 10)`, then 1 for `NaN` and
      `Math.max(1, v)` otherwise. */
  function GoalFromInput(txt: string): (g: int)
    ensures g >= 1
    ensures ParseInt(txt).None? ==> g == 1
    ensures ParseInt(txt).Some? ==> g == if ParseInt(txt).value < 1 then 1 else ParseInt(txt).value
  {
    match ParseInt(txt)
    case None => 1
    case Some(v) => if v < 1 then 1 else v
  }

  /** The field shows `String(dailyGoal)`; leaving that text as it is keeps the goal. */
  lemma GoalInputRoundTrip(goal: nat)
    requires goal >= 1
    ensures GoalFromInput(NatToString(goal)) == goal
  {
    ParseIntOfNatToString(goal);
  }


  // ---- what the summary promises ----

  /** The reference count on day numbers: done tasks whose creation day (today's, when
      they have no creation time) is `day`. */
  function CountOnDay(tasks: seq<Task>, now: Time, day: int): nat {
    if tasks == [] then 0
    else
      var t := tasks[|tasks| - 1];
      CountOnDay(tasks[..|tasks| - 1], now, day) + (if t.done && DayOf(CreatedOrNow(t, now)) == day then 1 else 0)
  }

  /** A done task is counted under the key of a four-digit-year day exactly when it was
      created on that day: an instant of an expanded year never shares that key. */
  lemma CompletedOnDay(t: Task, now: Time, day: int)
    requires FirstDay <= day <= LastDay
    ensures CompletedOn(t, KeyOfDay(day), now) <==> t.done && DayOf(CreatedOrNow(t, now)) == day
  {
    var created := DayOf(CreatedOrNow(t, now));
    assert DateKey(CreatedOrNow(t, now)) == KeyOfDay(created);
    KeyOfDayMatches(day, created);
  }

  /** Counting by key is counting by day, for the days of four-digit years. */
  lemma {:induction false} CountCompletedByDay(tasks: seq<Task>, now: Time, day: int)
    requires FirstDay <= day <= LastDay
    ensures CountCompleted(tasks, KeyOfDay(day), now) == CountOnDay(tasks, now, day)
  {
    if tasks != [] {
      CountCompletedByDay(tasks[..|tasks| - 1], now, day);
      CompletedOnDay(tasks[|tasks| - 1], now, day);
    }
  }

  /** Today's count is the number of done tasks created today. */
  lemma CompletedTodayByDay(tasks: seq<Task>, now: Time)
    requires FirstDay <= DayOf(now) <= LastDay
    ensures CompletedToday(tasks, now) == CountOnDay(tasks, now, DayOf(now))
  {
    CountCompletedByDay(tasks, now, DayOf(now));
  }

  /** The entry `offset` days back counts the done tasks created on that day. */
  lemma EntryCounts(tasks: seq<Task>, now: Time, offset: int)
    requires FirstDay <= DayBefore(now, offset) <= LastDay
    ensures Entry(tasks, now, offset).completed == CountOnDay(tasks, now, DayBefore(now, offset))
  {
    CountCompletedByDay(tasks, now, DayBefore(now, offset));
  }

  lemma CountOnDayAppend(tasks: seq<Task>, t: Task, now: Time, day: int)
    ensures CountOnDay(tasks + [t], now, day) ==
            CountOnDay(tasks, now, day) + (if t.done && DayOf(CreatedOrNow(t, now)) == day then 1 else 0)
  {
    assert (tasks + [t])[..|tasks + [t]| - 1] == tasks;
  }

  lemma CountDoneAppend(tasks: seq<Task>, t: Task)
    ensures CountDone(tasks + [t]) == CountDone(tasks) + (if t.done then 1 else 0)
  {
    assert (tasks + [t])[..|tasks + [t]| - 1] == tasks;
  }

  /** Only the newest entry, and always it, is labelled "Today". */
  lemma TodayLabelOnlyLast(summary: seq<DaySummary>, tasks: seq<Task>, now: Time, i: int)
    requires IsWeek(summary, tasks, now) && 0 <= i < 7
    ensures summary[i].dayLabel == TodayLabel <==> i == 6
  {
  }

  /** The entries are the seven consecutive days ending today, and for four-digit years
      their keys are pairwise distinct. */
  lemma WeekKeysDistinct(summary: seq<DaySummary>, tasks: seq<Task>, now: Time, i: int, j: int)
    requires IsWeek(summary, tasks, now)
    requires FirstDay + 6 <= DayOf(now) <= LastDay
    requires 0 <= i < 7 && 0 <= j < 7
    ensures summary[i].dateKey == KeyOfDay(DayBefore(now, 6 - i))
    ensures summary[i].dateKey == summary[j].dateKey <==> i == j
  {
    KeyOfDayMatches(DayBefore(now, 6 - i), DayBefore(now, 6 - j));
  }

  /** Today's count is the newest entry's count. */
  lemma CompletedTodayIsLastEntry(summary: seq<DaySummary>, tasks: seq<Task>, now: Time)
    requires IsWeek(summary, tasks, now)
    ensures CompletedToday(tasks, now) == summary[6].completed
  {
    assert summary[6] == Entry(tasks, now, 0);
    assert DayBefore(now, 0) == DayOf(now);
  }

  /** Tasks that are not done are never counted, and no day counts more tasks than are
      done. */
  lemma {:induction false} CountCompletedAtMostDone(tasks: seq<Task>, key: string, now: Time)
    ensures CountCompleted(tasks, key, now) <= CountDone(tasks)
    ensures CountDone(tasks) == 0 ==> CountCompleted(tasks, key, now) == 0
  {
    if tasks != [] {
      CountCompletedAtMostDone(tasks[..|tasks| - 1], key, now);
    }
  }

  /** A done task created `k` days before now (0 to 6; a task without a creation time
      counts as created now) adds one to the entry `k` days back and to no other. */
  lemma TaskLandsInItsDay(tasks: seq<Task>, t: Task, now: Time, k: int, offset: int)
    requires FirstDay + 6 <= DayOf(now) <= LastDay
    requires t.done && 0 <= k <= 6 && DayOf(CreatedOrNow(t, now)) == DayBefore(now, k)
    requires 0 <= offset <= 6
    ensures Entry(tasks + [t], now, offset).completed ==
            Entry(tasks, now, offset).completed + (if offset == k then 1 else 0)
  {
    EntryCounts(tasks + [t], now, offset);
    EntryCounts(tasks, now, offset);
    CountOnDayAppend(tasks, t, now, DayBefore(now, offset));
  }

  /** A done task without a creation time is counted today and on no other day. */
  lemma MissingCreatedAtCountsToday(tasks: seq<Task>, t: Task, now: Time, offset: int)
    requires FirstDay + 6 <= DayOf(now) <= LastDay
    requires t.done && t.createdAt.None? && 0 <= offset <= 6
    ensures Entry(tasks + [t], now, offset).completed ==
            Entry(tasks, now, offset).completed + (if offset == 0 then 1 else 0)
  {
    TaskLandsInItsDay(tasks, t, now, 0, offset);
  }

  // ---- the weekly total ----

  /** The done tasks created on the `n` oldest days of the week. */
  function WeekDayTotal(tasks: seq<Task>, now: Time, n: nat): nat {
    if n == 0 then 0 else WeekDayTotal(tasks, now, n - 1) + CountOnDay(tasks, now, DayBefore(now, 6 - (n - 1)))
  }

  lemma {:induction false} TotalIsWeekDayTotal(summary: seq<DaySummary>, tasks: seq<Task>, now: Time, n: nat)
    requires IsWeek(summary, tasks, now)
    requires FirstDay + 6 <= DayOf(now) <= LastDay
    requires n <= 7
    ensures TotalCompleted(summary[..n]) == WeekDayTotal(tasks, now, n)
  {
    if n > 0 {
      TotalOfPrefix(summary, n - 1);
      EntryCounts(tasks, now, 6 - (n - 1));
      TotalIsWeekDayTotal(summary, tasks, now, n - 1);
    }
  }

  /** One more task adds one to the running total when it is done and was created on
      one of those days, and nothing otherwise. */
  lemma {:induction false} WeekDayTotalAppend(tasks: seq<Task>, t: Task, now: Time, n: nat)
    ensures WeekDayTotal(tasks + [t], now, n) == WeekDayTotal(tasks, now, n) +
      (if t.done && DayBefore(now, 6) <= DayOf(CreatedOrNow(t, now)) < DayBefore(now, 6) + n then 1 else 0)
  {
    if n > 0 {
      WeekDayTotalAppend(tasks, t, now, n - 1);
      CountOnDayAppend(tasks, t, now, DayBefore(now, 6 - (n - 1)));
    }
  }

  lemma {:induction false} WeekDayTotalAtMostDone(tasks: seq<Task>, now: Time, n: nat)
    ensures WeekDayTotal(tasks, now, n) <= CountDone(tasks)
  {
    if tasks == [] {
      EmptyWeekDayTotal(now, n);
    } else {
      var init, t := tasks[..|tasks| - 1], tasks[|tasks| - 1];
      assert tasks == init + [t];
      WeekDayTotalAtMostDone(init, now, n);
      WeekDayTotalAppend(init, t, now, n);
      CountDoneAppend(init, t);
    }
  }

  lemma {:induction false} EmptyWeekDayTotal(now: Time, n: nat)
    ensures WeekDayTotal([], now, n) == 0
  {
    if n > 0 { EmptyWeekDayTotal(now, n - 1); }
  }

  /** The weekly total never exceeds the number of done tasks, because each task falls
      on one day at most. This rests on the seven keys being different, as they are for
      four-digit years. */
  lemma WeeklyTotalAtMostDone(summary: seq<DaySummary>, tasks: seq<Task>, now: Time)
    requires IsWeek(summary, tasks, now)
    requires FirstDay + 6 <= DayOf(now) <= LastDay
    ensures TotalCompleted(summary) <= CountDone(tasks)
  {
    assert summary[..7] == summary;
    TotalIsWeekDayTotal(summary, tasks, now, 7);
    WeekDayTotalAtMostDone(tasks, now, 7);
  }

  // ---- worked examples ----

  /** Two tasks done and one open, all created on today's date in a four-digit year,
      against a goal of 5: the page counts two completed today, goal 5, rate 40. */
  lemma ExampleTwoOfFive(now: Time, t1: Time, t2: Time, t3: Time)
    requires FirstDay <= DayOf(now) <= LastDay
    requires DayOf(t1) == DayOf(now) && DayOf(t2) == DayOf(now) && DayOf(t3) == DayOf(now)
    ensures var tasks := [Task(1, "a", true, Some(t1)), Task(2, "b", true, Some(t2)), Task(3, "c", false, Some(t3))];
      var stats := StatsOf(tasks, 5, now, []);
      stats.completedToday == 2 && stats.safeGoal == 5 && stats.completionRateToday == 40
  {
    var tasks := [Task(1, "a", true, Some(t1)), Task(2, "b", true, Some(t2)), Task(3, "c", false, Some(t3))];
    var d := DayOf(now);
    assert tasks[..2][..1] == tasks[..1] && tasks[..1][..0] == [];
    assert CountOnDay(tasks[..1], now, d) == 1;
    assert CountOnDay(tasks[..2], now, d) == 2;
    CompletedTodayByDay(tasks, now);
    assert CompletedToday(tasks, now) == 2;
    assert RoundedPercent(2, 5) == 40;
  }

  /** A goal of 0 is floored to 1, and three completions then saturate the rate. */
  lemma ExampleZeroGoal()
    ensures SafeGoal(0) == 1 && CompletionRate(3, SafeGoal(0)) == 100
  {
  }
}
