/** The dashboard: the exercise search, the four statistics cards and the difficulty colours. */
module DashboardPage {
  import opened JsText
  import opened Sequences
  import opened Catalog
  import opened Workouts
  import opened Statistics

  /** An exercise passes when its category matches and its lower-cased name contains `needle`. */
  predicate Matches(e: Exercise, category: string, needle: string)
  {
    (category == "all" || e.category == category) && Includes(ToLower(e.name), needle)
  }

  /** The filter against an already lower-cased search term. */
  function FilterLowered(es: seq<Exercise>, category: string, needle: string): (r: seq<Exercise>)
    ensures |r| <= |es|
    ensures IsSubsequence(r, es)
    ensures forall e :: e in r <==> e in es && Matches(e, category, needle)
  {
    if es == [] then []
    else if Matches(es[0], category, needle) then
      var t := FilterLowered(es[1..], category, needle);
      assert ([es[0]] + t)[1..] == t;
      [es[0]] + t
    else
      FilterLowered(es[1..], category, needle)
  }

  /** `filteredExercises`: category choice and case-insensitive name search. */
  function FilterExercises(es: seq<Exercise>, category: string, searchTerm: string): (r: seq<Exercise>)
  {
    FilterLowered(es, category, ToLower(searchTerm))
  }

  /**
   * An exercise is listed exactly when it is in the list, its category is the
   * chosen one (or `'all'` is chosen) and the lower-cased search term occurs
   * in its lower-cased name; the listing keeps the list's order.
   */
  lemma FilterExercisesSpec(es: seq<Exercise>, category: string, searchTerm: string, e: Exercise)
    ensures e in FilterExercises(es, category, searchTerm) <==>
              e in es && (category == "all" || e.category == category) &&
              Occurs(ToLower(searchTerm), ToLower(e.name))
    ensures IsSubsequence(FilterExercises(es, category, searchTerm), es)
  {
  }

  lemma {:induction false} EmptyOccurs(s: string)
    ensures Includes(s, "")
  {
    assert OccursAt("", s, 0);
  }

  lemma {:induction false} FilterLoweredKeepsAll(es: seq<Exercise>)
    ensures FilterLowered(es, "all", "") == es
  {
    if es != [] {
      EmptyOccurs(ToLower(es[0].name));
      FilterLoweredKeepsAll(es[1..]);
      assert [es[0]] + es[1..] == es;
    }
  }

  /** With the initial choices, `'all'` and an empty search, the whole catalog is listed. */
  lemma InitialListing()
    ensures FilterExercises(Exercises, "all", "") == Exercises
  {
    assert ToLower("") == "";
    FilterLoweredKeepsAll(Exercises);
  }

  /** The search ignores the case of what is typed. */
  lemma SearchIgnoresCase(es: seq<Exercise>, category: string, searchTerm: string)
    ensures FilterExercises(es, category, ToUpper(searchTerm)) == FilterExercises(es, category, searchTerm)
    ensures FilterExercises(es, category, ToLower(searchTerm)) == FilterExercises(es, category, searchTerm)
  {
    LowerIgnoresCase(searchTerm);
  }

  /** `Math.round(d / 60)` for a whole number of seconds: halves round up. */
  function RoundMinutes(d: nat): (r: nat)
    ensures r * 60 - 30 <= d < r * 60 + 30
  {
    (d + 30) / 60
  }

  /** `Math.round(x)` for a non-negative real: the nearest integer, halves up. */
  function RoundHalfUp(x: real): (r: nat)
    requires x >= 0.0
    ensures r as real - 0.5 <= x < r as real + 0.5
  {
    (x + 0.5).Floor
  }

  /** The integer form agrees with `Math.round` applied to the real quotient. */
  lemma RoundMinutesIsRound(d: nat)
    ensures RoundMinutes(d) == RoundHalfUp(d as real / 60.0)
  {
    var r := RoundMinutes(d);
    var x := d as real / 60.0;
    assert (r * 60) as real - 30.0 <= d as real < (r * 60) as real + 30.0;
    assert r as real - 0.5 <= x < r as real + 0.5;
    assert (x + 0.5).Floor == r;
  }

  datatype StatCard = StatCard(caption: string, value: string)

  /** `statsCards`: the four figures the dashboard shows above the catalog. */
  function StatsCards(st: WorkoutStats): (cards: seq<StatCard>)
    requires st.avgDuration >= 0.0
  {
    [ StatCard("Total Workouts", NatToString(st.totalWorkouts)),
      StatCard("Today's Sessions", NatToString(st.todayWorkouts)),
      StatCard("Total Minutes", NatToString(RoundMinutes(st.totalDuration))),
      StatCard("Average Duration", NatToString(RoundHalfUp(st.avgDuration / 60.0)) + "m") ]
  }

  /**
   * On the history's statistics, the cards read back as the number of
   * workouts, the number dated today, the total duration rounded to minutes
   * (within half a minute) and the mean duration rounded to minutes.
   */
  lemma StatsCardsReadBack(h: seq<Record>, today: Day)
    ensures GetWorkoutStats(h, today).avgDuration >= 0.0
    ensures var cards := StatsCards(GetWorkoutStats(h, today));
      |cards| == 4 &&
      DigitsValue(cards[0].value) == |h| &&
      DigitsValue(cards[1].value) == CountOn(h, today) &&
      DigitsValue(cards[2].value) * 60 - 30 <= TotalDuration(h) < DigitsValue(cards[2].value) * 60 + 30 &&
      (|h| == 0 ==> cards[3].value == "0m") &&
      AverageCardReads(cards[3].value, AvgDuration(h))
  {
    var st := GetWorkoutStats(h, today);
    assert st.avgDuration == AvgDuration(h);
    AverageCard(st.avgDuration);
  }

  /** `text` is a numeral, the mean in whole minutes (halves up), followed by `m`. */
  predicate AverageCardReads(text: string, avg: real)
    requires avg >= 0.0
  {
    |text| >= 2 && text[|text| - 1] == 'm' &&
    AllDigits(text[..|text| - 1]) &&
    DigitsValue(text[..|text| - 1]) == RoundHalfUp(avg / 60.0)
  }

  /** The average card reads back as the mean duration rounded to minutes. */
  lemma AverageCard(avg: real)
    requires avg >= 0.0
    ensures AverageCardReads(NatToString(RoundHalfUp(avg / 60.0)) + "m", avg)
  {
    var digits := NatToString(RoundHalfUp(avg / 60.0));
    assert (digits + "m")[..|digits|] == digits;
  }

  /** `getDifficultyColor`. */
  function DifficultyColor(difficulty: string): (color: string)
    ensures color == "text-gray-400" <==> difficulty !in Difficulties
  {
    match difficulty
    case "Beginner" => "text-green-400"
    case "Intermediate" => "text-yellow-400"
    case "Advanced" => "text-red-400"
    case _ => "text-gray-400"
  }

  /**
   * The three levels get three different colours, none of them the gray
   * default, so no catalog entry is shown gray.
   */
  lemma DifficultyColorsDistinct(a: string, b: string)
    requires a in Difficulties && b in Difficulties
    ensures DifficultyColor(a) != "text-gray-400"
    ensures DifficultyColor(a) == DifficultyColor(b) <==> a == b
  {
  }

  lemma CatalogNeverGray(e: Exercise)
    requires e in Exercises
    ensures DifficultyColor(e.difficulty) != "text-gray-400"
  {
    CatalogClassified();
    DifficultyColorsDistinct(e.difficulty, e.difficulty);
  }
}
