/** The history page: its category filter and the duration and category display helpers. */
module HistoryPage {
  import opened JsText
  import opened Sequences
  import opened Workouts
  import opened Statistics
  import Catalog

  /** The filter choices offered, `'all'` first. */
  const FilterChoices: seq<string> := ["all", "Strength", "Cardio", "Core", "HIIT", "Flexibility"]

  /** `workoutHistory.filter(w => filter === 'all' || w.category === filter)`. */
  function FilterHistory(h: seq<Record>, filter: string): (r: seq<Record>)
    ensures |r| <= |h|
    ensures forall x :: x in r <==> x in h && (filter == "all" || x.category == filter)
    ensures IsSubsequence(r, h)
  {
    if h == [] then []
    else if filter == "all" || h[0].category == filter then
      var t := FilterHistory(h[1..], filter);
      assert ([h[0]] + t)[1..] == t;
      [h[0]] + t
    else
      var t := FilterHistory(h[1..], filter);
      assert t == [] || IsSubsequence(t, h[1..]);
      t
  }

  /** The `'all'` choice shows the whole history, unchanged. */
  lemma {:induction false} FilterAllIsIdentity(h: seq<Record>)
    ensures FilterHistory(h, "all") == h
  {
    if h != [] {
      FilterAllIsIdentity(h[1..]);
      assert [h[0]] + h[1..] == h;
    }
  }

  /** Filtering what is already filtered by the same choice changes nothing. */
  lemma {:induction false} FilterIdempotent(h: seq<Record>, filter: string)
    ensures FilterHistory(FilterHistory(h, filter), filter) == FilterHistory(h, filter)
  {
    if h != [] {
      FilterIdempotent(h[1..], filter);
      var t := FilterHistory(h[1..], filter);
      if filter == "all" || h[0].category == filter {
        assert ([h[0]] + t)[1..] == t;
      }
    }
  }

  /** A category's list is as long as that category's count in `categoryStats`. */
  lemma {:induction false} FilterCountMatchesStats(h: seq<Record>, c: string)
    requires c != "all"
    ensures |FilterHistory(h, c)| == Lookup(CategoryStats(h), c)
  {
    CategoryFilterCount(h, c);
  }

  lemma {:induction false} CategoryFilterCount(h: seq<Record>, c: string)
    requires c != "all"
    ensures |FilterHistory(h, c)| == CountCategory(h, c)
  {
    if h != [] {
      CategoryFilterCount(h[1..], c);
    }
  }

  /** `formatDuration`: `{minutes}m {seconds}s` with no padding. */
  function FormatDuration(seconds: nat): string
  {
    var mins := seconds / 60;
    var secs := seconds % 60;
    NatToString(mins) + "m " + NatToString(secs) + "s"
  }

  /**
   * The text splits into a minutes numeral, `m `, a seconds numeral of one
   * or two digits without a leading zero (unless it is `0`), and `s`; the
   * seconds are below 60 and minutes * 60 + seconds is the input.
   */
  lemma FormatDurationFields(seconds: nat) returns (mins: string, secs: string)
    ensures FormatDuration(seconds) == mins + "m " + secs + "s"
    ensures AllDigits(mins) && AllDigits(secs) && 1 <= |mins| && 1 <= |secs| <= 2
    ensures secs[0] == '0' ==> |secs| == 1
    ensures DigitsValue(secs) < 60
    ensures DigitsValue(mins) * 60 + DigitsValue(secs) == seconds
  {
    mins := NatToString(seconds / 60);
    secs := NatToString(seconds % 60);
    if seconds % 60 >= 10 {
      assert |NatToString(seconds % 60 / 10)| == 1;
    }
  }

  const CategoryColors: seq<(string, string)> := [
    ("Strength", "from-red-500 to-pink-500"),
    ("Cardio", "from-blue-500 to-cyan-500"),
    ("Core", "from-green-500 to-emerald-500"),
    ("HIIT", "from-purple-500 to-indigo-500"),
    ("Flexibility", "from-yellow-500 to-orange-500")
  ]

  const DefaultColor := "from-gray-500 to-gray-600"

  const CategoryIcons: seq<(string, string)> := [
    ("Strength", "💪"),
    ("Cardio", "🏃"),
    ("Core", "🏋️"),
    ("HIIT", "🔥"),
    ("Flexibility", "🧘")
  ]

  const DefaultIcon := "💪"

  /** `getCategoryColor`. */
  function CategoryColor(category: string): string
  {
    LookupOr(CategoryColors, category, DefaultColor)
  }

  /** `getCategoryIcon`. */
  function CategoryIcon(category: string): string
  {
    LookupOr(CategoryIcons, category, DefaultIcon)
  }

  /** Each of the five categories gets its own gradient, never the gray default. */
  lemma KnownCategoryColors(category: string)
    requires category in Catalog.Categories
    ensures CategoryColor(category) != DefaultColor
    ensures forall other :: other in Catalog.Categories && other != category ==>
              CategoryColor(other) != CategoryColor(category)
  {
    assert CategoryColor("Strength") == "from-red-500 to-pink-500";
    assert CategoryColor("Cardio") == "from-blue-500 to-cyan-500";
    assert CategoryColor("Core") == "from-green-500 to-emerald-500";
    assert CategoryColor("HIIT") == "from-purple-500 to-indigo-500";
    assert CategoryColor("Flexibility") == "from-yellow-500 to-orange-500";
  }

  /**
   * Any other category gets the gray gradient and the flexed-arm icon, which
   * is also Strength's icon.
   */
  lemma UnknownCategoryDefaults(category: string)
    requires category !in Catalog.Categories
    ensures CategoryColor(category) == DefaultColor
    ensures CategoryIcon(category) == DefaultIcon == CategoryIcon("Strength")
  {
    assert forall i :: 0 <= i < |CategoryColors| ==> CategoryColors[i].0 == Catalog.Categories[i];
    assert forall i :: 0 <= i < |CategoryIcons| ==> CategoryIcons[i].0 == Catalog.Categories[i];
    LookupOrFinds(CategoryColors, category, DefaultColor);
    LookupOrFinds(CategoryIcons, category, DefaultIcon);
  }
}
