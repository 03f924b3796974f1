/**
 * The fixed exercise catalog of `ExerciseContext` and its lookup by the id
 * string taken from the route (`getExerciseById`).
 */
module Catalog {
  import opened Wrappers
  import opened JsText

  /** One catalog entry; `icon` and `color` are display attributes. */
  datatype Exercise = Exercise(
    id: int,
    name: string,
    category: string,
    icon: string,
    color: string,
    description: string,
    difficulty: string)

  /** The five categories every catalog entry belongs to. */
  const Categories: seq<string> := ["Strength", "Cardio", "Core", "HIIT", "Flexibility"]

  /** The three difficulty levels. */
  const Difficulties: seq<string> := ["Beginner", "Intermediate", "Advanced"]

  /** The catalog, in display order. It is never changed at run time. */
  const Exercises: seq<Exercise> := [
    Exercise(1, "Push-ups", "Strength", "💪", "from-red-500 to-pink-500", "Classic upper body exercise", "Beginner"),
    Exercise(2, "Squats", "Strength", "🦵", "from-blue-500 to-cyan-500", "Lower body powerhouse", "Beginner"),
    Exercise(3, "Plank", "Core", "🏋️", "from-green-500 to-emerald-500", "Core stability exercise", "Intermediate"),
    Exercise(4, "Jumping Jacks", "Cardio", "🏃", "from-yellow-500 to-orange-500", "Full body cardio workout", "Beginner"),
    Exercise(5, "Burpees", "HIIT", "🔥", "from-purple-500 to-indigo-500", "High intensity full body", "Advanced"),
    Exercise(6, "Mountain Climbers", "Cardio", "⛰️", "from-teal-500 to-blue-500", "Dynamic cardio movement", "Intermediate"),
    Exercise(7, "Deadlifts", "Strength", "🏋️‍♂️", "from-orange-500 to-red-500", "Full body strength builder", "Advanced"),
    Exercise(8, "Lunges", "Strength", "🚶", "from-pink-500 to-rose-500", "Unilateral leg strength", "Intermediate"),
    Exercise(9, "Pull-ups", "Strength", "🤸", "from-indigo-500 to-purple-500", "Upper body pulling power", "Advanced"),
    Exercise(10, "Bicycle Crunches", "Core", "🚴", "from-emerald-500 to-teal-500", "Oblique targeting exercise", "Intermediate"),
    Exercise(11, "Russian Twists", "Core", "🌪️", "from-violet-500 to-purple-500", "Rotational core strength", "Intermediate"),
    Exercise(12, "High Knees", "Cardio", "🏃‍♀️", "from-lime-500 to-green-500", "Cardio and leg activation", "Beginner"),
    Exercise(13, "Box Jumps", "HIIT", "📦", "from-amber-500 to-orange-500", "Explosive lower body power", "Advanced"),
    Exercise(14, "Battle Ropes", "HIIT", "🪢", "from-slate-500 to-gray-600", "Full body conditioning", "Advanced"),
    Exercise(15, "Yoga Flow", "Flexibility", "🧘", "from-rose-400 to-pink-400", "Mindful movement practice", "Beginner"),
    Exercise(16, "Swimming", "Cardio", "🏊", "from-blue-400 to-cyan-400", "Full body low impact", "Intermediate"),
    Exercise(17, "Kettlebell Swings", "Strength", "🏋️‍♀️", "from-red-600 to-orange-600", "Hip hinge power movement", "Intermediate"),
    Exercise(18, "Stretching", "Flexibility", "🤸‍♀️", "from-green-400 to-emerald-400", "Improve flexibility and mobility", "Beginner")
  ]

  /** `exercises.find(e => e.id === n)`: the first entry with that id. */
  function Find(exercises: seq<Exercise>, n: int): (r: Option<Exercise>)
    ensures r.Some? ==> r.value in exercises && r.value.id == n
    ensures r.None? ==> forall i :: 0 <= i < |exercises| ==> exercises[i].id != n
    ensures r.Some? ==> exists i :: 0 <= i < |exercises| && exercises[i] == r.value &&
                          forall j :: 0 <= j < i ==> exercises[j].id != n
  {
    if exercises == [] then None
    else if exercises[0].id == n then Some(exercises[0])
    else
      var r := Find(exercises[1..], n);
      assert r.Some? ==> exists i :: 0 <= i < |exercises| && exercises[i] == r.value &&
                          forall j :: 0 <= j < i ==> exercises[j].id != n by {
        if r.Some? {
          var i :| 0 <= i < |exercises| - 1 && exercises[1..][i] == r.value &&
                   forall j :: 0 <= j < i ==> exercises[1..][j].id != n;
          assert exercises[i + 1] == r.value;
          assert forall j :: 0 <= j < i + 1 ==> exercises[j].id != n by {
            forall j | 0 <= j < i + 1 ensures exercises[j].id != n {
              if j > 0 { assert exercises[j] == exercises[1..][j - 1]; }
            }
          }
        }
      }
      r
  }

  /** `getExerciseById(id)`: `find` by `parseInt(id)`; `NaN` matches nothing. */
  function GetExerciseById(id: string): (r: Option<Exercise>)
    ensures r.Some? ==> r.value in Exercises && ParseInt(id) == Some(r.value.id)
    ensures ParseInt(id).None? ==> r.None?
  {
    match ParseInt(id)
    case None => None
    case Some(n) => Find(Exercises, n)
  }

  /** The catalog holds ids 1 to 18, in order, so ids are pairwise distinct. */
  lemma CatalogIds()
    ensures |Exercises| == 18
    ensures forall i :: 0 <= i < |Exercises| ==> Exercises[i].id == i + 1
    ensures forall i, j :: 0 <= i < j < |Exercises| ==> Exercises[i].id != Exercises[j].id
  {
  }

  /** Every entry is in one of the five categories and has one of the three difficulties. */
  lemma CatalogClassified()
    ensures forall e :: e in Exercises ==> e.category in Categories && e.difficulty in Difficulties
  {
    CatalogCategories();
    CatalogDifficulties();
  }

  lemma CatalogCategories()
    ensures forall i :: 0 <= i < |Exercises| ==> Exercises[i].category in Categories
  {
  }

  lemma CatalogDifficulties()
    ensures forall i :: 0 <= i < |Exercises| ==> Exercises[i].difficulty in Difficulties
  {
  }

  /** The first entry is Push-ups, a Strength exercise with id 1. */
  lemma FirstEntry()
    ensures |Exercises| == 18 && Exercises[0] in Exercises
    ensures Exercises[0].id == 1 && Exercises[0].name == "Push-ups" && Exercises[0].category == "Strength"
  {
  }

  /**
   * A lookup finds an entry exactly when the id string parses to 1..18, and
   * then it finds the only entry carrying that id.
   */
  lemma GetExerciseByIdFinds(id: string)
    ensures GetExerciseById(id).Some? <==> ParseInt(id).Some? && 1 <= ParseInt(id).value <= 18
    ensures GetExerciseById(id).Some? ==>
              GetExerciseById(id).value == Exercises[ParseInt(id).value - 1]
  {
    CatalogIds();
    match ParseInt(id)
    case None =>
    case Some(n) =>
      if 1 <= n <= 18 {
        assert Exercises[n - 1].id == n;
        var e := GetExerciseById(id).value;
        var k :| 0 <= k < 18 && Exercises[k] == e;
      }
  }

  /** The route `/exercise/{id}` built from an entry's id leads back to that entry. */
  lemma LookupByRouteId(e: Exercise)
    requires e in Exercises
    ensures GetExerciseById(NatToString(e.id)) == Some(e)
  {
    CatalogIds();
    var k :| 0 <= k < 18 && Exercises[k] == e;
    ParseIntOfNumeral(e.id, []);
    assert NatToString(e.id) + [] == NatToString(e.id);
    GetExerciseByIdFinds(NatToString(e.id));
  }
}
