/** The analytics page: the period choice, the chart rows, the period total and the pie slices. */
module AnalyticsPage {
  import opened JsText
  import opened Workouts
  import opened Statistics
  import opened Sequences
  import DashboardPage

  /** The period buttons, in days, and the one selected when the page opens. */
  const Periods: seq<nat> := [7, 14, 30]
  const InitialPeriod: nat := 7

  // ---- weeklyData ----

  /** One point of the area and bar charts; the date label is left to the renderer. */
  datatype ChartRow = ChartRow(date: Day, workouts: nat, minutes: nat)

  /** `dailyStats.map(day => ...)`: workouts copied, duration rounded to minutes. */
  function WeeklyData(series: seq<DayStat>): (rows: seq<ChartRow>)
    ensures |rows| == |series|
    ensures forall i :: 0 <= i < |series| ==>
              rows[i].date == series[i].date && rows[i].workouts == series[i].workouts &&
              rows[i].minutes * 60 - 30 <= series[i].duration < rows[i].minutes * 60 + 30
  {
    if series == [] then []
    else
      [ChartRow(series[0].date, series[0].workouts, DashboardPage.RoundMinutes(series[0].duration))] +
      WeeklyData(series[1..])
  }

  /**
   * The chart for period `n` has one row per day of the `n` days ending
   * today, oldest first, with that day's number of workouts.
   */
  lemma ChartRowsOfPeriod(h: seq<Record>, today: Day, n: nat, k: nat)
    requires k < n
    ensures |WeeklyData(DailySeries(h, today, n))| == n
    ensures WeeklyData(DailySeries(h, today, n))[k].date == today - n + 1 + k
    ensures WeeklyData(DailySeries(h, today, n))[k].workouts == CountOn(h, today - n + 1 + k)
  {
    DailySeriesAt(h, today, n, k);
    DayEntryZeroFilled(h, today - n + 1 + k);
  }

  // ---- "This Period" ----

  /** `dailyStats.reduce((sum, day) => sum + day.workouts, 0)`, a left fold. */
  function PeriodTotal(series: seq<DayStat>): nat
  {
    if series == [] then 0
    else PeriodTotal(series[..|series| - 1]) + series[|series| - 1].workouts
  }

  /** The records dated after day `lo` and no later than day `hi`. */
  function Within(h: seq<Record>, lo: Day, hi: Day): (r: seq<Record>)
    ensures |r| <= |h|
  {
    if h == [] then []
    else if lo < h[0].date <= hi then [h[0]] + Within(h[1..], lo, hi)
    else Within(h[1..], lo, hi)
  }

  /** `Within` keeps exactly the records dated in the window, each occurrence, in history order. */
  lemma {:induction false} WithinMembers(h: seq<Record>, lo: Day, hi: Day)
    ensures forall x :: x in Within(h, lo, hi) <==> x in h && lo < x.date <= hi
    ensures IsSubsequence(Within(h, lo, hi), h)
    ensures forall x :: multiset(Within(h, lo, hi))[x] == if lo < x.date <= hi then multiset(h)[x] else 0
  {
    if h != [] {
      WithinMembers(h[1..], lo, hi);
      assert h == [h[0]] + h[1..];
      assert multiset(h) == multiset([h[0]]) + multiset(h[1..]);
      if lo < h[0].date <= hi {
        assert ([h[0]] + Within(h[1..], lo, hi))[1..] == Within(h[1..], lo, hi);
      }
    }
  }

  lemma {:induction false} WithinSplit(h: seq<Record>, lo: Day, hi: Day)
    requires lo < hi
    ensures |Within(h, lo, hi)| == |Within(h, lo, hi - 1)| + CountOn(h, hi)
  {
    if h != [] {
      WithinSplit(h[1..], lo, hi);
    }
  }

  /**
   * The "This Period" figure counts exactly the records dated in the
   * selected period: the `n` days ending today.
   */
  lemma PeriodTotalCounts(h: seq<Record>, today: Day, n: nat)
    ensures PeriodTotal(DailySeries(h, today, n)) == |Within(h, today - n, today)|
  {
    SeriesTotalIsDayCounts(h, today, n);
    WindowIsDayCounts(h, today, n);
  }

  /**
   * The page opens on one of its period buttons, and each button shows a
   * chart of that many days whose "This Period" figure counts the records of
   * exactly those days.
   */
  lemma PeriodChoices(h: seq<Record>, today: Day, p: nat)
    requires p in Periods
    ensures InitialPeriod in Periods && p > 0
    ensures |WeeklyData(DailySeries(h, today, p))| == p
    ensures PeriodTotal(DailySeries(h, today, p)) == |Within(h, today - p, today)|
  {
    PeriodTotalCounts(h, today, p);
  }

  /** The day-by-day count over the `n` days ending `today`. */
  function DayCounts(h: seq<Record>, today: Day, n: nat): nat
    decreases n
  {
    if n == 0 then 0 else DayCounts(h, today - 1, n - 1) + CountOn(h, today)
  }

  lemma {:induction false} SeriesTotalIsDayCounts(h: seq<Record>, today: Day, n: nat)
    ensures PeriodTotal(DailySeries(h, today, n)) == DayCounts(h, today, n)
    decreases n
  {
    if n > 0 {
      PeriodTotalStep(h, today, n);
      SeriesTotalIsDayCounts(h, today - 1, n - 1);
    }
  }

  lemma {:induction false} WindowIsDayCounts(h: seq<Record>, today: Day, n: nat)
    ensures |Within(h, today - n, today)| == DayCounts(h, today, n)
    decreases n
  {
    if n > 0 {
      WithinSplit(h, today - n, today);
      WindowIsDayCounts(h, today - 1, n - 1);
      assert today - 1 - (n - 1) == today - n;
    } else {
      EmptyWindow(h, today);
    }
  }

  /** Extending the period by one day adds that day's count to the total. */
  lemma PeriodTotalStep(h: seq<Record>, today: Day, n: nat)
    requires n > 0
    ensures PeriodTotal(DailySeries(h, today, n)) ==
            PeriodTotal(DailySeries(h, today - 1, n - 1)) + CountOn(h, today)
  {
    var prefix := DailySeries(h, today - 1, n - 1);
    var entry := DayEntry(h, today);
    assert DailySeries(h, today, n) == prefix + [entry];
    PeriodTotalSnoc(prefix, entry);
    DayEntryZeroFilled(h, today);
  }

  lemma PeriodTotalSnoc(s: seq<DayStat>, x: DayStat)
    ensures PeriodTotal(s + [x]) == PeriodTotal(s) + x.workouts
  {
    assert (s + [x])[..|s|] == s;
  }

  lemma {:induction false} EmptyWindow(h: seq<Record>, d: Day)
    ensures Within(h, d, d) == []
  {
    if h != [] {
      EmptyWindow(h[1..], d);
    }
  }

  // ---- pieData ----

  datatype PieSlice = PieSlice(name: string, value: nat, color: string)

  const PieColors: seq<(string, string)> := [
    ("Strength", "#ef4444"),
    ("Cardio", "#3b82f6"),
    ("Core", "#10b981"),
    ("HIIT", "#8b5cf6"),
    ("Flexibility", "#f59e0b")
  ]

  const DefaultPieColor := "#6b7280"

  /** `categoryColors[category] || '#6b7280'`. */
  function PieColor(category: string): string
  {
    LookupOr(PieColors, category, DefaultPieColor)
  }

  /** `Object.entries(stats.categoryStats).map(...)`: one slice per key, in key order. */
  function PieData(stats: seq<CategoryCount>): (slices: seq<PieSlice>)
    ensures |slices| == |stats|
    ensures forall i :: 0 <= i < |stats| ==>
              slices[i] == PieSlice(stats[i].category, stats[i].count, PieColor(stats[i].category))
  {
    if stats == [] then []
    else [PieSlice(stats[0].category, stats[0].count, PieColor(stats[0].category))] + PieData(stats[1..])
  }

  lemma {:induction false} LookupAtDistinctKey(stats: seq<CategoryCount>, i: nat)
    requires i < |stats| && DistinctKeys(stats)
    ensures Lookup(stats, stats[i].category) == stats[i].count
  {
    if i > 0 {
      assert DistinctKeys(stats[1..]);
      LookupAtDistinctKey(stats[1..], i - 1);
    }
  }

  /** The slices are named by the keys, so a name has a slice exactly when it is a key. */
  lemma PieNamesAreKeys(stats: seq<CategoryCount>, c: string)
    ensures c in Keys(stats) <==> exists i :: 0 <= i < |PieData(stats)| && PieData(stats)[i].name == c
  {
    var slices := PieData(stats);
    var keys := Keys(stats);
    assert |slices| == |keys|;
    assert forall i :: 0 <= i < |slices| ==> slices[i].name == keys[i];
    if c in keys {
      var i :| 0 <= i < |keys| && keys[i] == c;
      assert 0 <= i < |PieData(stats)| && PieData(stats)[i].name == c;
    } else {
      forall i | 0 <= i < |slices| ensures slices[i].name != c {
        assert keys[i] in keys;
      }
    }
  }

  /** The slices name exactly the categories that occur in the history. */
  lemma PieNamesCategories(h: seq<Record>, c: string)
    ensures c in CategoriesOf(h) <==>
              exists i :: 0 <= i < |PieData(CategoryStats(h))| && PieData(CategoryStats(h))[i].name == c
  {
    var stats := CategoryStats(h);
    assert c in Keys(stats) <==> c in CategoriesOf(h);
    PieNamesAreKeys(stats, c);
  }

  /** Each slice carries its category's workout count, which is positive, and no category has two slices. */
  lemma PieCountsCategories(h: seq<Record>)
    ensures var slices := PieData(CategoryStats(h));
      (forall i :: 0 <= i < |slices| ==> slices[i].value == CountCategory(h, slices[i].name) > 0) &&
      (forall i, j :: 0 <= i < j < |slices| ==> slices[i].name != slices[j].name)
  {
    var stats := CategoryStats(h);
    var slices := PieData(stats);
    forall i | 0 <= i < |slices| ensures slices[i].value == CountCategory(h, slices[i].name) > 0 {
      assert slices[i].name == stats[i].category && slices[i].value == stats[i].count;
      LookupAtDistinctKey(stats, i);
      assert Lookup(stats, stats[i].category) == CountCategory(h, stats[i].category);
    }
    forall i, j | 0 <= i < j < |slices| ensures slices[i].name != slices[j].name {
      assert slices[i].name == stats[i].category && slices[j].name == stats[j].category;
    }
  }

  /** There is a slice exactly when the history is not empty. */
  lemma PieShownIffHistory(h: seq<Record>)
    ensures |PieData(CategoryStats(h))| > 0 <==> |h| > 0
  {
    if |h| > 0 {
      PieNamesCategories(h, h[0].category);
      assert h[0].category in CategoriesOf(h);
    }
  }

  /**
   * The pie drawn from the history has one slice per category that occurs,
   * each category once, each slice's value the number of workouts in it
   * and never zero; it is drawn (has a slice) exactly when the history is
   * not empty.
   */
  lemma PieOfHistory(h: seq<Record>, today: Day)
    ensures var slices := PieData(GetWorkoutStats(h, today).categoryStats);
      (|slices| > 0 <==> |h| > 0) &&
      (forall c :: c in CategoriesOf(h) <==> exists i :: 0 <= i < |slices| && slices[i].name == c) &&
      (forall i, j :: 0 <= i < j < |slices| ==> slices[i].name != slices[j].name) &&
      (forall i :: 0 <= i < |slices| ==> slices[i].value == CountCategory(h, slices[i].name) > 0)
  {
    forall c ensures c in CategoriesOf(h) <==>
        exists i :: 0 <= i < |PieData(CategoryStats(h))| && PieData(CategoryStats(h))[i].name == c {
      PieNamesCategories(h, c);
    }
    PieCountsCategories(h);
    PieShownIffHistory(h);
  }
}
