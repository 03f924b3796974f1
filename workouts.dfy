/** The workout values held by `ExerciseContext`: the active session and completed records. */
module Workouts {

  /**
   * A calendar day as a day number. The stored key `yyyy-MM-dd` is an
   * injective function of the day, so comparing keys is comparing days.
   */
  type Day = int

  /** A timestamp in milliseconds (`Date.now()`, `new Date()`). */
  type Time = int

  datatype Status = Active | Completed

  /** The in-progress workout built by `startWorkout`. */
  datatype Session = Session(
    id: int,
    exerciseId: int,
    exerciseName: string,
    category: string,
    startTime: Time,
    duration: nat,
    status: Status)

  /** A completed workout as stored in the history. */
  datatype Record = Record(
    id: int,
    exerciseId: int,
    exerciseName: string,
    category: string,
    startTime: Time,
    endTime: Time,
    duration: nat,
    status: Status,
    date: Day)
}

/** The aggregates `getWorkoutStats` and `getDailyStats` compute over the history. */
module Statistics {
  import opened Workouts
  import opened Sequences

  /** `reduce((sum, w) => sum + w.duration, 0)`. */
  function TotalDuration(h: seq<Record>): nat
  {
    if h == [] then 0 else h[0].duration + TotalDuration(h[1..])
  }

  /** No single workout lasts longer than the total. */
  lemma {:induction false} TotalDurationBounds(h: seq<Record>)
    ensures forall i :: 0 <= i < |h| ==> h[i].duration <= TotalDuration(h)
  {
    if h != [] {
      TotalDurationBounds(h[1..]);
      forall i | 1 <= i < |h| ensures h[i].duration <= TotalDuration(h) {
        assert h[i] == h[1..][i - 1];
      }
    }
  }

  lemma {:induction false} TotalDurationAppend(a: seq<Record>, b: seq<Record>)
    ensures TotalDuration(a + b) == TotalDuration(a) + TotalDuration(b)
  {
    if a != [] {
      assert (a + b)[1..] == a[1..] + b;
      TotalDurationAppend(a[1..], b);
    } else {
      assert a + b == b;
    }
  }

  /** `filter(w => w.date === d)`: the records of one day, in history order. */
  function OnDay(h: seq<Record>, d: Day): (r: seq<Record>)
    ensures |r| <= |h|
  {
    if h == [] then []
    else if h[0].date == d then [h[0]] + OnDay(h[1..], d)
    else OnDay(h[1..], d)
  }

  /** `OnDay` keeps exactly the records dated `d`, each occurrence, in history order. */
  lemma {:induction false} OnDayMembers(h: seq<Record>, d: Day)
    ensures forall x :: x in OnDay(h, d) <==> x in h && x.date == d
    ensures IsSubsequence(OnDay(h, d), h)
    ensures forall x :: multiset(OnDay(h, d))[x] == if x.date == d then multiset(h)[x] else 0
  {
    if h != [] {
      OnDayMembers(h[1..], d);
      assert h == [h[0]] + h[1..];
      assert multiset(h) == multiset([h[0]]) + multiset(h[1..]);
      if h[0].date == d {
        assert ([h[0]] + OnDay(h[1..], d))[1..] == OnDay(h[1..], d);
      }
    }
  }

  /** Number of records dated `d`. */
  function CountOn(h: seq<Record>, d: Day): nat
  {
    |OnDay(h, d)|
  }

  /** `avgDuration`: the mean duration, guarded to 0 for an empty history. */
  function AvgDuration(h: seq<Record>): (avg: real)
    ensures |h| == 0 ==> avg == 0.0
    ensures |h| > 0 ==> avg * (|h| as real) == TotalDuration(h) as real
    ensures avg >= 0.0
  {
    if |h| > 0 then (TotalDuration(h) as real) / (|h| as real) else 0.0
  }

  // ---- categoryStats ----

  /**
   * One own property of the `categoryStats` object. The object is kept as an
   * association list in insertion order, which is the order in which
   * `Object.entries` lists non-numeric keys.
   */
  datatype CategoryCount = CategoryCount(category: string, count: nat)

  function Keys(stats: seq<CategoryCount>): (ks: seq<string>)
    ensures |ks| == |stats|
    ensures forall i :: 0 <= i < |stats| ==> ks[i] == stats[i].category
  {
    if stats == [] then [] else [stats[0].category] + Keys(stats[1..])
  }

  predicate DistinctKeys(stats: seq<CategoryCount>)
  {
    forall i, j :: 0 <= i < j < |stats| ==> stats[i].category != stats[j].category
  }

  predicate PositiveCounts(stats: seq<CategoryCount>)
  {
    forall i :: 0 <= i < |stats| ==> stats[i].count > 0
  }

  /** `stats[c] || 0`: the count under key `c`, and 0 for a missing key. */
  function Lookup(stats: seq<CategoryCount>, c: string): (n: nat)
    ensures c !in Keys(stats) ==> n == 0
  {
    if stats == [] then 0
    else if stats[0].category == c then stats[0].count
    else Lookup(stats[1..], c)
  }

  function SumCounts(stats: seq<CategoryCount>): nat
  {
    if stats == [] then 0 else stats[0].count + SumCounts(stats[1..])
  }

  /** `stats[c] = (stats[c] || 0) + 1`: a new key goes last, an existing one is incremented. */
  function Tally(stats: seq<CategoryCount>, c: string): (r: seq<CategoryCount>)
    ensures Keys(r) == if c in Keys(stats) then Keys(stats) else Keys(stats) + [c]
    ensures SumCounts(r) == SumCounts(stats) + 1
  {
    if stats == [] then [CategoryCount(c, 1)]
    else if stats[0].category == c then
      [CategoryCount(c, stats[0].count + 1)] + stats[1..]
    else
      var t := Tally(stats[1..], c);
      assert Keys(stats) == [stats[0].category] + Keys(stats[1..]);
      var r := [stats[0]] + t;
      assert Keys(r) == [stats[0].category] + Keys(t);
      assert r[1..] == t;
      r
  }

  lemma {:induction false} TallyLookup(stats: seq<CategoryCount>, c: string, k: string)
    ensures Lookup(Tally(stats, c), k) == Lookup(stats, k) + (if k == c then 1 else 0)
  {
    if stats != [] && stats[0].category != c {
      TallyLookup(stats[1..], c, k);
      assert Tally(stats, c)[1..] == Tally(stats[1..], c);
    }
  }

  lemma {:induction false} TallyKeepsShape(stats: seq<CategoryCount>, c: string)
    requires DistinctKeys(stats) && PositiveCounts(stats)
    ensures DistinctKeys(Tally(stats, c)) && PositiveCounts(Tally(stats, c))
  {
    var r := Tally(stats, c);
    if stats != [] && stats[0].category != c {
      var t := Tally(stats[1..], c);
      TallyKeepsShape(stats[1..], c);
      assert r == [stats[0]] + t;
      assert stats[0].category !in Keys(stats[1..]);
      forall i, j | 0 <= i < j < |r| ensures r[i].category != r[j].category {
        if i == 0 { assert r[j].category == Keys(t)[j - 1]; }
      }
    } else if stats != [] {
      forall i, j | 0 <= i < j < |r| ensures r[i].category != r[j].category {
        assert r[i].category == stats[i].category;
      }
    }
  }

  /** Number of records in category `c`. */
  function CountCategory(h: seq<Record>, c: string): nat
  {
    if h == [] then 0 else (if h[0].category == c then 1 else 0) + CountCategory(h[1..], c)
  }

  /** The categories occurring in `h`. */
  function CategoriesOf(h: seq<Record>): set<string>
  {
    set i | 0 <= i < |h| :: h[i].category
  }

  lemma CategoriesOfCons(h: seq<Record>)
    requires h != []
    ensures CategoriesOf(h) == {h[0].category} + CategoriesOf(h[1..])
  {
    forall c | c in CategoriesOf(h) ensures c in {h[0].category} + CategoriesOf(h[1..]) {
      var i :| 0 <= i < |h| && h[i].category == c;
      if i > 0 { assert h[1..][i - 1].category == c; }
    }
    forall c | c in CategoriesOf(h[1..]) ensures c in CategoriesOf(h) {
      var i :| 0 <= i < |h| - 1 && h[1..][i].category == c;
      assert h[i + 1].category == c;
    }
  }

  /** The `reduce` that builds `categoryStats`, from an accumulator `acc`. */
  function TallyAll(acc: seq<CategoryCount>, h: seq<Record>): (r: seq<CategoryCount>)
    ensures SumCounts(r) == SumCounts(acc) + |h|
    decreases h
  {
    if h == [] then acc else TallyAll(Tally(acc, h[0].category), h[1..])
  }

  lemma {:induction false} TallyAllLookup(acc: seq<CategoryCount>, h: seq<Record>, k: string)
    ensures Lookup(TallyAll(acc, h), k) == Lookup(acc, k) + CountCategory(h, k)
    decreases h
  {
    if h != [] {
      TallyLookup(acc, h[0].category, k);
      TallyAllLookup(Tally(acc, h[0].category), h[1..], k);
    }
  }

  lemma {:induction false} TallyAllKeys(acc: seq<CategoryCount>, h: seq<Record>, k: string)
    ensures k in Keys(TallyAll(acc, h)) <==> k in Keys(acc) || k in CategoriesOf(h)
    decreases h
  {
    if h != [] {
      CategoriesOfCons(h);
      TallyAllKeys(Tally(acc, h[0].category), h[1..], k);
    }
  }

  lemma {:induction false} TallyAllKeepsShape(acc: seq<CategoryCount>, h: seq<Record>)
    requires DistinctKeys(acc) && PositiveCounts(acc)
    ensures DistinctKeys(TallyAll(acc, h)) && PositiveCounts(TallyAll(acc, h))
    decreases h
  {
    if h != [] {
      TallyKeepsShape(acc, h[0].category);
      TallyAllKeepsShape(Tally(acc, h[0].category), h[1..]);
    }
  }

  /**
   * `categoryStats`: its keys are exactly the categories that occur in `h`
   * (absent ones are not zero-filled), each key once, each mapped to the
   * number of records in that category; the counts add up to `|h|`.
   */
  function CategoryStats(h: seq<Record>): (stats: seq<CategoryCount>)
    ensures forall c :: Lookup(stats, c) == CountCategory(h, c)
    ensures forall c :: c in Keys(stats) <==> c in CategoriesOf(h)
    ensures DistinctKeys(stats) && PositiveCounts(stats)
    ensures SumCounts(stats) == |h|
  {
    var stats := TallyAll([], h);
    forall c ensures Lookup(stats, c) == CountCategory(h, c) && (c in Keys(stats) <==> c in CategoriesOf(h)) {
      TallyAllLookup([], h, c);
      TallyAllKeys([], h, c);
    }
    TallyAllKeepsShape([], h);
    stats
  }

  /** The value `getWorkoutStats` returns. */
  datatype WorkoutStats = WorkoutStats(
    totalWorkouts: nat,
    totalDuration: nat,
    avgDuration: real,
    todayWorkouts: nat,
    categoryStats: seq<CategoryCount>)

  function GetWorkoutStats(h: seq<Record>, today: Day): (st: WorkoutStats)
    ensures st.totalWorkouts == |h| && st.totalDuration == TotalDuration(h)
    ensures st.totalWorkouts == 0 ==> st.avgDuration == 0.0
    ensures st.totalWorkouts > 0 ==> st.avgDuration * (st.totalWorkouts as real) == st.totalDuration as real
    ensures st.todayWorkouts == CountOn(h, today)
    ensures st.categoryStats == CategoryStats(h)
  {
    var totalWorkouts := |h|;
    var totalDuration := TotalDuration(h);
    WorkoutStats(totalWorkouts, totalDuration, AvgDuration(h), |OnDay(h, today)|, CategoryStats(h))
  }

  /** Prepending a record adds one workout, its duration, and one to its category. */
  lemma PrependStats(r: Record, h: seq<Record>, today: Day)
    ensures GetWorkoutStats([r] + h, today).totalWorkouts == GetWorkoutStats(h, today).totalWorkouts + 1
    ensures GetWorkoutStats([r] + h, today).totalDuration == GetWorkoutStats(h, today).totalDuration + r.duration
    ensures GetWorkoutStats([r] + h, today).todayWorkouts ==
              GetWorkoutStats(h, today).todayWorkouts + (if r.date == today then 1 else 0)
    ensures forall c :: Lookup(CategoryStats([r] + h), c) ==
              Lookup(CategoryStats(h), c) + (if r.category == c then 1 else 0)
  {
    assert ([r] + h)[1..] == h;
  }

  // ---- getDailyStats ----

  /** One entry of `getDailyStats`. */
  datatype DayStat = DayStat(date: Day, workouts: nat, duration: nat)

  /** The entry for day `d`: the records dated `d`, counted and their durations summed. */
  function DayEntry(h: seq<Record>, d: Day): DayStat
  {
    var dayWorkouts := OnDay(h, d);
    DayStat(d, |dayWorkouts|, TotalDuration(dayWorkouts))
  }

  /** Days without records are zero-filled, and only those. */
  lemma DayEntryZeroFilled(h: seq<Record>, d: Day)
    ensures DayEntry(h, d).date == d && DayEntry(h, d).workouts == CountOn(h, d)
    ensures DayEntry(h, d).workouts == 0 <==> forall i :: 0 <= i < |h| ==> h[i].date != d
    ensures DayEntry(h, d).workouts == 0 ==> DayEntry(h, d).duration == 0
  {
    OnDayMembers(h, d);
    if exists i :: 0 <= i < |h| && h[i].date == d {
      var i :| 0 <= i < |h| && h[i].date == d;
      assert h[i] in h;
      assert h[i] in OnDay(h, d);
    }
  }

  /**
   * The series `getDailyStats(n)` returns: one entry for each of the `n`
   * consecutive days ending `today`, oldest first, zero-filled.
   */
  function DailySeries(h: seq<Record>, today: Day, n: int): (s: seq<DayStat>)
    ensures |s| == if n > 0 then n else 0
    decreases n
  {
    if n <= 0 then [] else DailySeries(h, today - 1, n - 1) + [DayEntry(h, today)]
  }

  /** Entry `k` of the series is the entry of day `today - (n - 1) + k`. */
  lemma {:induction false} DailySeriesAt(h: seq<Record>, today: Day, n: int, k: int)
    requires 0 <= k < n
    ensures DailySeries(h, today, n)[k] == DayEntry(h, today - n + 1 + k)
    decreases n
  {
    var prefix := DailySeries(h, today - 1, n - 1);
    var entry := DayEntry(h, today);
    var series := DailySeries(h, today, n);
    assert series == prefix + [entry];
    if k < n - 1 {
      assert series[k] == prefix[k];
      DailySeriesAt(h, today - 1, n - 1, k);
      assert (today - 1) - (n - 1) + 1 + k == today - n + 1 + k;
    } else {
      assert series[k] == entry;
    }
  }


  /**
   * The series is determined by its shape: `n` entries, entry `k` being the
   * entry of day `today - (n - 1) + k`.
   */
  lemma DailySeriesCharacterized(h: seq<Record>, series: seq<DayStat>, today: Day, n: int)
    requires |series| == if n > 0 then n else 0
    requires forall k :: 0 <= k < |series| ==> series[k] == DayEntry(h, today - |series| + 1 + k)
    ensures series == DailySeries(h, today, n)
  {
    var expected := DailySeries(h, today, n);
    assert |expected| == |series|;
    forall k | 0 <= k < |series| ensures series[k] == expected[k] {
      DailySeriesAt(h, today, n, k);
    }
    assert series == expected;
  }
}
