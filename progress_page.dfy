/** The Progress screen of app/progress.js. It reads the figures that the Today page
    passes as route parameters, with defaults for the ones that are missing, and
    recomputes the goal figures from the shared `dailyGoal` setting. */
module ProgressPage {
  import opened Maybe
  import opened DateKeys
  import opened Tasks
  import opened Analytics

  /** A count parameter as `Number(params.x || 0)` sees it. `Missing` is an absent or
      empty parameter, which falls back to 0. `Numeric(v)` is a string that reads as the
      integer `v`. `NotANumber` is any other string, which `Number` turns into `NaN`. */
  datatype NumberParam = Missing | Numeric(v: int) | NotANumber

  /** The `weeklySummary` parameter. `Absent` is missing or empty (read as `"[]"`).
      `Malformed` is a string on which `JSON.parse` throws. `Parsed` holds the list the
      string encodes. */
  datatype SummaryParam = Absent | Malformed | Parsed(entries: seq<DaySummary>)

  datatype Params = Params(completedToday: NumberParam, totalCompletedWeek: NumberParam,
                           weeklySummary: SummaryParam)

  /** What the screen shows. A count is `None` where JavaScript has `NaN`. */
  datatype ProgressView = ProgressView(completedToday: Option<int>, totalCompletedWeek: Option<int>,
                                       weeklySummary: seq<DaySummary>, safeGoal: int,
                                       completionRateToday: Option<int>, weeklyGoal: int, maxForBars: int)

  /** `Number(p || 0)`. */
  function CountOf(p: NumberParam): (n: Option<int>)
    ensures n.None? <==> p.NotANumber?
    ensures p.Missing? ==> n == Some(0)
    ensures p.Numeric? ==> n == Some(p.v)
  {
    match p
    case Missing => Some(0)
    case Numeric(v) => Some(v)
    case NotANumber => None
  }

  /** The `try { JSON.parse(params.weeklySummary || "[]") } catch { [] }` memo. */
  function SummaryOf(p: SummaryParam): (entries: seq<DaySummary>)
    ensures p.Parsed? ==> entries == p.entries
    ensures !p.Parsed? ==> entries == []
  {
    match p
    case Parsed(entries) => entries
    case _ => []
  }

  /** `Math.min(100, Math.round((completedToday / safeGoal) * 100))`. `NaN` in gives
      `NaN` out. */
  function RateOf(completed: Option<int>, safeGoal: int): (rate: Option<int>)
    requires safeGoal >= 1
    ensures rate.None? <==> completed.None?
    ensures completed.Some? ==> rate == Some(CompletionRate(completed.value, safeGoal))
  {
    match completed
    case None => None
    case Some(c) => Some(CompletionRate(c, safeGoal))
  }

  /** The screen's figures, from the route parameters and the `dailyGoal` setting.
      The goal is floored at 1, the weekly goal is seven daily goals, the bars are
      scaled to one daily goal, and a rate that is a number is at most 100. It is 100
      once today's count reaches the goal and at least 0 when the count is. */
  function ViewOf(params: Params, dailyGoal: int): (v: ProgressView)
    ensures v.safeGoal >= 1 && (dailyGoal > 0 ==> v.safeGoal == dailyGoal)
    ensures v.weeklyGoal == 7 * v.safeGoal && v.maxForBars == v.safeGoal
    ensures v.completionRateToday.Some? <==> v.completedToday.Some?
    ensures v.completionRateToday.Some? ==>
      var c := v.completedToday.value;
      var r := v.completionRateToday.value;
      r <= 100 && (c >= 0 ==> r >= 0) && (c >= v.safeGoal ==> r == 100)
    ensures v.completedToday.Some? ==>
      v.completionRateToday == Some(CompletionRate(v.completedToday.value, v.safeGoal))
    ensures params.completedToday.Missing? ==> v.completedToday == Some(0)
    ensures params.completedToday.Numeric? ==> v.completedToday == Some(params.completedToday.v)
    ensures params.completedToday.NotANumber? ==> v.completedToday.None?
    ensures params.totalCompletedWeek.Missing? ==> v.totalCompletedWeek == Some(0)
    ensures params.totalCompletedWeek.Numeric? ==> v.totalCompletedWeek == Some(params.totalCompletedWeek.v)
    ensures params.totalCompletedWeek.NotANumber? ==> v.totalCompletedWeek.None?
    ensures params.weeklySummary.Parsed? ==> v.weeklySummary == params.weeklySummary.entries
    ensures !params.weeklySummary.Parsed? ==> v.weeklySummary == []
  {
    var done := CountOf(params.completedToday);
    var goal := SafeGoal(dailyGoal);
    ProgressView(done, CountOf(params.totalCompletedWeek), SummaryOf(params.weeklySummary),
                 goal, RateOf(done, goal), goal * 7, goal)
  }

  /** With no parameters at all the screen shows zero done, a zero rate, no week and no
      weekly total, rather than failing. */
  lemma NoParamsView(dailyGoal: int)
    ensures var v := ViewOf(Params(Missing, Missing, Absent), dailyGoal);
      v.completedToday == Some(0) && v.completionRateToday == Some(0) &&
      v.totalCompletedWeek == Some(0) && v.weeklySummary == []
  {
    RoundedPercentBounds(0, SafeGoal(dailyGoal));
  }

  /** A count that does not read as a number shows as `NaN`, and so does its rate. */
  lemma NotANumberRate(params: Params, dailyGoal: int)
    requires params.completedToday.NotANumber?
    ensures ViewOf(params, dailyGoal).completionRateToday.None?
  {
  }

  /** The parameters that the Today page's "progress" button pushes: its own counts, and
      its weekly summary serialised and read back unchanged. */
  function ParamsFromToday(stats: Stats, summary: seq<DaySummary>): Params {
    Params(Numeric(stats.completedToday), Numeric(stats.totalCompletedWeek), Parsed(summary))
  }

  /** The Progress screen agrees with the Today page that sent it there. Both pages read
      the same `dailyGoal` setting, and the screen recomputes the goal figures with the
      same formulas. So every figure it shows is the one the Today page computed. */
  lemma AgreesWithTodayPage(tasks: seq<Task>, dailyGoal: int, now: Time, summary: seq<DaySummary>)
    ensures var stats := StatsOf(tasks, dailyGoal, now, summary);
      var v := ViewOf(ParamsFromToday(stats, summary), dailyGoal);
      v.completedToday == Some(stats.completedToday) &&
      v.totalCompletedWeek == Some(stats.totalCompletedWeek) &&
      v.weeklySummary == summary &&
      v.safeGoal == stats.safeGoal &&
      v.completionRateToday == Some(stats.completionRateToday) &&
      v.weeklyGoal == stats.weeklyGoal &&
      v.maxForBars == stats.maxForBars
  {
  }
}
