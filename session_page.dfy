/**
 * The exercise-session page: its timer state, its start/pause/complete/cancel
 * handlers and what it shows.
 */
module SessionPage {
  import opened Wrappers
  import opened JsText
  import opened Catalog
  import opened Workouts
  import opened Tracker

  /** `formatTime`: whole minutes, a colon, then the remaining seconds, each padded to two digits. */
  function FormatTime(totalSeconds: nat): string
  {
    var mins := totalSeconds / 60;
    var secs := totalSeconds % 60;
    PadStart(NatToString(mins), 2, '0') + ":" + PadStart(NatToString(secs), 2, '0')
  }

  lemma ShortNumeral(n: nat)
    requires n < 100
    ensures |NatToString(n)| <= 2
  {
    if n >= 10 { assert |NatToString(n / 10)| == 1; }
  }

  /**
   * The clock splits into a minutes field of at least two digits, a colon,
   * and a seconds field of exactly two digits; the fields read back as
   * `t / 60` and `t % 60`, so the seconds field is below 60 and
   * minutes * 60 + seconds is `t`.
   */
  lemma FormatTimeFields(t: nat) returns (mins: string, secs: string)
    ensures FormatTime(t) == mins + ":" + secs
    ensures |mins| >= 2 && |secs| == 2 && AllDigits(mins) && AllDigits(secs)
    ensures DigitsValue(secs) < 60
    ensures DigitsValue(mins) * 60 + DigitsValue(secs) == t
  {
    mins := PadStart(NatToString(t / 60), 2, '0');
    secs := PadStart(NatToString(t % 60), 2, '0');
    ZeroPaddedValue(NatToString(t / 60), 2);
    ZeroPaddedValue(NatToString(t % 60), 2);
    ShortNumeral(t % 60);
  }

  /** Two clock texts with two-character seconds fields are equal only field by field. */
  lemma ClockSplit(ma: string, sa: string, mb: string, sb: string)
    requires |sa| == 2 && |sb| == 2 && ma + ":" + sa == mb + ":" + sb
    ensures ma == mb && sa == sb
  {
    var r := ma + ":" + sa;
    assert sa == r[|r| - 2..] == sb;
    assert ma == r[..|r| - 3] == mb;
  }

  /** Different elapsed times never show the same clock. */
  lemma FormatTimeInjective(a: nat, b: nat)
    requires FormatTime(a) == FormatTime(b)
    ensures a == b
  {
    var ma, sa := FormatTimeFields(a);
    var mb, sb := FormatTimeFields(b);
    ClockSplit(ma, sa, mb, sb);
  }

  datatype Button = StartButton(caption: string) | PauseButton

  /** What the page renders, reduced to what the user can read and press. */
  datatype View =
    | NotFound
    | CompletedView(exerciseName: string, elapsed: string)
    | SessionPanel(timer: string, statusText: string, primary: Button, offersComplete: bool)

  class SessionView {
    const store: ExerciseStore
    /** `getExerciseById(exerciseId)` for the route parameter. */
    const exercise: Option<Exercise>
    var isRunning: bool
    var seconds: nat
    var isCompleted: bool
    /** The page's own copy of the workout `startWorkout` returned. */
    var currentWorkout: Option<Session>

    /**
     * The store is consistent, only a started workout is timed, and the
     * page's workout is a workout of the page's exercise.
     */
    ghost predicate Valid()
      reads this, store
    {
      && store.Valid()
      && (isRunning ==> currentWorkout.Some?)
      && (seconds > 0 ==> currentWorkout.Some?)
      && (currentWorkout.Some? ==> exercise.Some? && currentWorkout.value.exerciseId == exercise.value.id)
    }

    constructor (store: ExerciseStore, exerciseId: string)
      requires store.Valid()
      ensures Valid() && this.store == store
      ensures exercise == GetExerciseById(exerciseId)
      ensures !isRunning && seconds == 0 && !isCompleted && currentWorkout == None
    {
      this.store := store;
      exercise := GetExerciseById(exerciseId);
      isRunning := false;
      seconds := 0;
      isCompleted := false;
      currentWorkout := None;
    }

    /**
     * The rendered page: the not-found message (no controls) for an unknown
     * exercise, the completion message once completed, otherwise the timer
     * with Start/Resume or Pause, Complete only once time has elapsed, and
     * Cancel.
     */
    function Render(): (v: View)
      reads this
      ensures v.NotFound? <==> exercise.None?
      ensures v.CompletedView? <==> exercise.Some? && isCompleted
      ensures v.SessionPanel? ==> (v.offersComplete <==> seconds > 0)
      ensures v.SessionPanel? ==> (v.primary.StartButton? <==> !isRunning)
      ensures v.SessionPanel? && v.primary.StartButton? ==>
                (v.primary.caption == "Start Workout" <==> seconds == 0)
      ensures !v.NotFound? ==> (v.CompletedView? ==> v.elapsed == FormatTime(seconds))
    {
      if exercise.None? then NotFound
      else if isCompleted then CompletedView(exercise.value.name, FormatTime(seconds))
      else
        SessionPanel(
          FormatTime(seconds),
          if isRunning then "Active" else "Paused",
          if isRunning then PauseButton else StartButton(if seconds == 0 then "Start Workout" else "Resume"),
          seconds > 0)
    }

    /**
     * `handleStart`: start a workout only if the page has none yet (so
     * Resume keeps the same workout), then run the timer.
     */
    method HandleStart(now: Time)
      requires Valid() && exercise.Some?
      modifies this, store
      ensures Valid()
      ensures old(currentWorkout).None? ==>
                && store.current == currentWorkout
                && currentWorkout == Some(Session(now, exercise.value.id, exercise.value.name,
                                                  exercise.value.category, now, 0, Active))
      ensures old(currentWorkout).Some? ==>
                currentWorkout == old(currentWorkout) && store.current == old(store.current)
      ensures isRunning && seconds == old(seconds) && isCompleted == old(isCompleted)
      ensures store.history == old(store.history)
    {
      if currentWorkout.None? {
        var workout := store.StartWorkout(exercise.value, now);
        currentWorkout := Some(workout);
      }
      isRunning := true;
    }

    /** `handlePause`: stop the timer; the elapsed seconds stay. */
    method HandlePause()
      requires Valid()
      modifies this`isRunning
      ensures Valid() && !isRunning
    {
      isRunning := false;
    }

    /** One interval callback: a second more while running, nothing while paused. */
    method Tick()
      requires Valid()
      modifies this`seconds
      ensures Valid()
      ensures seconds == old(seconds) + (if isRunning then 1 else 0)
    {
      if isRunning {
        seconds := seconds + 1;
      }
    }

    /**
     * `handleComplete`: stop the timer, complete the store's workout with
     * the elapsed seconds, and show the completion view.
     */
    method HandleComplete(now: Time, today: Day)
      requires Valid()
      modifies this`isRunning, this`isCompleted, store
      ensures Valid()
      ensures !isRunning && isCompleted && seconds == old(seconds)
      ensures store.current == None
      ensures old(store.current).None? ==> store.history == old(store.history)
      ensures old(store.current).Some? ==>
                && |store.history| == |old(store.history)| + 1
                && store.history[1..] == old(store.history)
                && CompletedFrom(store.history[0], old(store.current).value, seconds, now, today)
    {
      isRunning := false;
      var _ := store.CompleteWorkout(seconds, now, today);
      isCompleted := true;
    }

    /** `handleCancel`: stop the timer and drop the store's workout; no record is made. */
    method HandleCancel()
      requires Valid()
      modifies this`isRunning, store
      ensures Valid()
      ensures !isRunning && store.current == None && store.history == old(store.history)
    {
      isRunning := false;
      store.CancelWorkout();
    }
  }

  /** Following the link `/exercise/{id}` of a catalog entry opens its session page. */
  method OpenFromCatalog(store: ExerciseStore, e: Exercise) returns (view: SessionView)
    requires store.Valid() && e in Exercises
    ensures fresh(view) && view.Valid() && view.store == store && view.exercise == Some(e)
    ensures !view.isRunning && view.seconds == 0 && !view.isCompleted && view.currentWorkout == None
  {
    LookupByRouteId(e);
    view := new SessionView(store, NatToString(e.id));
  }

  /** The interval firing `n` times. */
  method RunTimer(view: SessionView, n: nat)
    requires view.Valid()
    modifies view`seconds
    ensures view.Valid()
    ensures view.seconds == old(view.seconds) + (if view.isRunning then n else 0)
  {
    var i := 0;
    while i < n
      invariant 0 <= i <= n && view.Valid()
      invariant view.seconds == old(view.seconds) + (if view.isRunning then i else 0)
    {
      view.Tick();
      i := i + 1;
    }
  }

  /**
   * Opening Push-ups, starting, letting 45 seconds tick and completing
   * leaves exactly one record with the exercise's identity and 45 seconds.
   */
  method PushUpsScenario(t0: Time, t1: Time, today: Day) returns (history: seq<Record>)
    ensures history == [Record(t0, 1, "Push-ups", "Strength", t0, t1, 45, Completed, today)]
  {
    FirstEntry();
    var pushUps := Exercises[0];
    var store: ExerciseStore := new ExerciseStore([]);
    var view := OpenFromCatalog(store, pushUps);
    view.HandleStart(t0);
    RunTimer(view, 45);
    view.HandleComplete(t1, today);
    history := store.history;
  }

  /**
   * Start, 10 seconds, pause, 5 ignored ticks, resume, 20 seconds, complete:
   * the record keeps the first start time and holds the 30 timed seconds.
   */
  method PauseResumeScenario(t0: Time, t1: Time, t2: Time, today: Day) returns (history: seq<Record>)
    ensures |history| == 1
    ensures history[0].startTime == t0 && history[0].duration == 30 && history[0].endTime == t2
  {
    var store: ExerciseStore := new ExerciseStore([]);
    var squats := Exercises[1];
    var view := OpenFromCatalog(store, squats);
    view.HandleStart(t0);
    assert view.seconds == 0 && store.history == [];
    ghost var started := store.current;
    assert started.Some? && started.value.startTime == t0;
    RunTimer(view, 10);
    view.HandlePause();
    RunTimer(view, 5);
    assert view.seconds == 10 && store.current == started;
    view.HandleStart(t1);
    assert store.current == started && store.history == [];
    RunTimer(view, 20);
    assert view.seconds == 30;
    view.HandleComplete(t2, today);
    history := store.history;
  }

  /** Start, 3 seconds, cancel: no record, and no active workout. */
  method CancelScenario(t0: Time) returns (history: seq<Record>, current: Option<Session>)
    ensures history == [] && current == None
  {
    var store: ExerciseStore := new ExerciseStore([]);
    var view := OpenFromCatalog(store, Exercises[2]);
    view.HandleStart(t0);
    RunTimer(view, 3);
    view.HandleCancel();
    history, current := store.history, store.current;
  }
}
