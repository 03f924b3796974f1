/**
 * The state `ExerciseContext` provides: the workout history (mirrored to one
 * storage slot), the single active-workout slot and the operations on them.
 */
module Tracker {
  import opened Wrappers
  import opened Catalog
  import opened Workouts
  import opened Statistics

  /** Why loading the history can fail: `JSON.parse` throws on malformed text. */
  datatype LoadError = MalformedJson

  /**
   * The initial history: `localStorage.getItem` gives `null` (`None`) or the
   * stored text; a falsy value (absent or empty text) loads as `[]`, anything
   * else goes through `decode` (`JSON.parse`), whose failure is not caught.
   */
  function LoadHistory(slot: Option<string>, decode: string -> Option<seq<Record>>): (r: Result<seq<Record>, LoadError>)
    ensures slot == None || slot == Some("") ==> r == Ok([])
    ensures slot.Some? && slot.value != "" ==>
              (r.Ok? <==> decode(slot.value).Some?) && (r.Ok? ==> r.value == decode(slot.value).value)
  {
    match slot
    case None => Ok([])
    case Some(text) =>
      if text == "" then Ok([])
      else match decode(text)
        case None => Err(MalformedJson)
        case Some(h) => Ok(h)
  }

  /**
   * Writing the history with `encode` (`JSON.stringify`) and loading it back
   * gives the same history, whenever `decode` inverts `encode` and `encode`
   * never yields empty text (it yields at least `[]`).
   */
  lemma ReloadPersisted(h: seq<Record>, encode: seq<Record> -> string, decode: string -> Option<seq<Record>>)
    requires encode(h) != "" && decode(encode(h)) == Some(h)
    ensures LoadHistory(Some(encode(h)), decode) == Ok(h)
    ensures LoadHistoryRecovering(Some(encode(h)), decode) == h
  {
  }

  /**
   * As written, a slot holding text the parser rejects makes loading fail:
   * `JSON.parse` throws during the provider's first render.
   */
  lemma MalformedSlotFails(decode: string -> Option<seq<Record>>)
    requires decode("{") == None
    ensures LoadHistory(Some("{"), decode) == Err(MalformedJson)
  {
  }

  /**
   * The loader with the parse failure caught: absent, empty and malformed
   * slots all load as the empty history, and a readable slot loads as what
   * it decodes to.
   */
  function LoadHistoryRecovering(slot: Option<string>, decode: string -> Option<seq<Record>>): (h: seq<Record>)
    ensures slot == None || slot == Some("") ==> h == []
    ensures slot.Some? && slot.value != "" && decode(slot.value).None? ==> h == []
    ensures slot.Some? && slot.value != "" && decode(slot.value).Some? ==> h == decode(slot.value).value
  {
    match LoadHistory(slot, decode)
    case Ok(loaded) => loaded
    case Err(_) => []
  }

  /** Wherever the unguarded loader succeeds, the recovering one loads the same history. */
  lemma RecoveringAgrees(slot: Option<string>, decode: string -> Option<seq<Record>>)
    ensures LoadHistory(slot, decode).Ok? ==> LoadHistoryRecovering(slot, decode) == LoadHistory(slot, decode).value
    ensures LoadHistory(slot, decode).Err? ==> LoadHistoryRecovering(slot, decode) == []
  {
  }

  /** A record completed from session `s` with `duration` seconds at time `now` on day `today`. */
  predicate CompletedFrom(r: Record, s: Session, duration: nat, now: Time, today: Day)
  {
    && r.id == s.id && r.exerciseId == s.exerciseId && r.exerciseName == s.exerciseName
    && r.category == s.category && r.startTime == s.startTime
    && r.duration == duration && r.endTime == now && r.status == Completed && r.date == today
  }

  class ExerciseStore {
    const exercises: seq<Exercise>
    var history: seq<Record>
    var current: Option<Session>
    /** What the `workoutHistory` storage slot holds. */
    ghost var persisted: seq<Record>

    /** The catalog is fixed and the storage slot mirrors the whole history. */
    ghost predicate Valid()
      reads this
    {
      exercises == Catalog.Exercises && persisted == history
    }

    /** Provider mount: the loaded history, no active workout, and the first write of the slot. */
    constructor (loaded: seq<Record>)
      ensures Valid()
      ensures history == loaded && current == None
    {
      exercises := Catalog.Exercises;
      history := loaded;
      current := None;
      persisted := loaded;
    }

    /**
     * `startWorkout(exercise)`: a fresh session for the exercise, with
     * duration 0, replacing any session already in the slot.
     */
    method StartWorkout(exercise: Exercise, now: Time) returns (w: Session)
      requires Valid()
      modifies this`current
      ensures Valid()
      ensures current == Some(w)
      ensures w.exerciseId == exercise.id && w.exerciseName == exercise.name && w.category == exercise.category
      ensures w.id == now && w.startTime == now && w.duration == 0 && w.status == Active
      ensures history == old(history)
    {
      w := Session(now, exercise.id, exercise.name, exercise.category, now, 0, Active);
      current := Some(w);
    }

    /**
     * `completeWorkout(duration)`: with an active session, prepend its
     * completed record, persist the history and clear the slot; without one,
     * change nothing and return `undefined`.
     */
    method CompleteWorkout(duration: nat, now: Time, today: Day) returns (r: Option<Record>)
      requires Valid()
      modifies this`history, this`current, this`persisted
      ensures Valid()
      ensures old(current).None? ==> r == None && history == old(history) && current == old(current)
      ensures old(current).Some? ==>
                && r.Some? && CompletedFrom(r.value, old(current).value, duration, now, today)
                && history == [r.value] + old(history)
                && current == None
    {
      match current
      case None =>
        r := None;
      case Some(s) =>
        var completed := Record(s.id, s.exerciseId, s.exerciseName, s.category, s.startTime,
                                now, duration, Completed, today);
        history := [completed] + history;
        persisted := history;
        current := None;
        r := Some(completed);
    }

    /** `cancelWorkout()`: clear the slot; the history is untouched. */
    method CancelWorkout()
      requires Valid()
      modifies this`current
      ensures Valid()
      ensures current == None && history == old(history)
    {
      current := None;
    }

    /**
     * `getDailyStats(days)`: fill a per-day table for today and the
     * `days - 1` days before it, then list its values oldest first.
     */
    method GetDailyStats(days: int, today: Day) returns (series: seq<DayStat>)
      ensures series == DailySeries(history, today, days)
    {
      var dailyStats: map<Day, DayStat> := map[];
      var keys: seq<Day> := [];
      var i := 0;
      while i < days
        invariant 0 <= i <= if days > 0 then days else 0
        invariant |keys| == i
        invariant forall j :: 0 <= j < i ==> keys[j] == today - j
        invariant forall d :: today - i < d <= today ==> d in dailyStats && dailyStats[d] == DayEntry(history, d)
      {
        var date := today - i;
        var dayWorkouts := OnDay(history, date);
        dailyStats := dailyStats[date := DayStat(date, |dayWorkouts|, TotalDuration(dayWorkouts))];
        keys := keys + [date];
        i := i + 1;
      }
      // Object.values(dailyStats).reverse()
      series := [];
      var k := 0;
      while k < |keys|
        invariant 0 <= k <= |keys|
        invariant |series| == k
        invariant forall j :: 0 <= j < k ==> series[j] == DayEntry(history, today - |keys| + 1 + j)
      {
        ghost var d := today - |keys| + 1 + k;
        assert keys[|keys| - 1 - k] == d;
        series := series + [dailyStats[keys[|keys| - 1 - k]]];
        k := k + 1;
      }
      DailySeriesCharacterized(history, series, today, days);
    }
  }

  /** Provider mount: the store starts from the slot's history, loaded without crashing. */
  method Mount(slot: Option<string>, decode: string -> Option<seq<Record>>) returns (store: ExerciseStore)
    ensures fresh(store) && store.Valid()
    ensures store.history == LoadHistoryRecovering(slot, decode) && store.current == None
  {
    store := new ExerciseStore(LoadHistoryRecovering(slot, decode));
  }
}
