# Exercise tracker — a Dafny model

This project models the core of a single-page React exercise tracker:

- the shared exercise state (`ExerciseContext`):
  - the fixed catalog of 18 exercises;
  - the workout history, newest first, mirrored to one storage slot;
  - the single active-workout slot;
  - the operations start, complete and cancel;
  - the catalog lookup by route id;
  - the aggregate statistics and the per-day series;
- the four pages built on that state:
  - the exercise session, with its timer and handlers;
  - the history, with its category filter;
  - the dashboard, with its search and statistics cards;
  - the analytics, with its chart rows, period total and pie slices.

The modules follow the program's structure:

| module | file | models |
|---|---|---|
| `JsText` | `jstext.dfy` | the JavaScript string and number behaviour the core relies on: `toString`, `padStart`, `parseInt`, `toLowerCase`, `includes`, `obj[key] \|\| fallback` |
| `Catalog` | `catalog.dfy` | the exercise entity, the 18-entry catalog and `getExerciseById` |
| `Workouts`, `Statistics` | `workouts.dfy` | the session and record entities; `getWorkoutStats` and `getDailyStats` as functions of the history |
| `Tracker` | `tracker.dfy` | the provider state as a class: history, active slot, persisted slot, and the mutating operations |
| `SessionPage` | `session_page.dfy` | the session page as a class with the page's own state and handlers |
| `HistoryPage`, `DashboardPage`, `AnalyticsPage` | `history_page.dfy`, `dashboard_page.dfy`, `analytics_page.dfy` | the pages' pure derivations |
| `Sequences`, `Wrappers` | `sequences.dfy`, `wrappers.dfy` | order-preserving selection; `Option`/`Result` |

How time, storage and dates are represented:

- Calendar days are integers (`Day`). The `yyyy-MM-dd` key the code compares is a one-to-one function of the day, so comparing keys is comparing days.
- The clock (`Date.now()`, `new Date()`) is passed in as parameters `now` and `today`.
- The storage slot is a ghost field `persisted` that the class invariant keeps equal to the history.
- `JSON.parse` and `JSON.stringify` are passed in as the functions `decode` and `encode`.

Three behaviours of the code worth knowing:

- **Loading a malformed slot.** A non-empty stored text goes straight to `JSON.parse`, with no guard, so malformed text makes loading throw. `Tracker.LoadHistory` models this. A loader that falls back to an empty history is listed under Findings.
- **Complete or cancel with no active workout.** `completeWorkout` returns `undefined` and `cancelWorkout` only clears an already empty slot: both are silent no-ops. `Tracker.ExerciseStore.CompleteWorkout` and `CancelWorkout` model that.
- **Route ids with trailing text.** `getExerciseById` uses `parseInt`, which accepts a numeric prefix, so `"1abc"` finds exercise 1. `Catalog.GetExerciseByIdFinds` states exactly which strings find an exercise.

## Model

| member | source | states |
|---|---|---|
| JsText.NatToString | src/pages/ExerciseSession.jsx:37 | `toString` of a whole number: a non-empty digit string that reads back as the number, with a leading zero only for 0, and one digit exactly below 10 |
| JsText.PadStart | src/pages/ExerciseSession.jsx:37 | `padStart(width, fill)`: the result's length is the larger of the input's and `width`; it ends with the input, and every character before that is the fill |
| JsText.ZeroPaddedValue | src/pages/ExerciseSession.jsx:37 | zero-padding a digit string keeps its value and its digits-only form |
| JsText.LeadingZeroValue | src/pages/ExerciseSession.jsx:37 | a leading `0` does not change a digit string's value |
| JsText.TrimStart | src/context/ExerciseContext.jsx:226 | `parseInt` first drops leading whitespace: the result is a suffix that starts with a non-space |
| JsText.DigitPrefix | src/context/ExerciseContext.jsx:226 | the longest run of decimal digits at the start of the text |
| JsText.HexPrefix | src/context/ExerciseContext.jsx:226 | the longest run of hexadecimal digits at the start of the text: all hex digits, and the next character, if any, is not one |
| JsText.ParseUnsigned | src/context/ExerciseContext.jsx:226 | `parseInt` after the sign: text with no digit gives NaN (`None`) |
| JsText.ParseSigned | src/context/ExerciseContext.jsx:226 | `parseInt` after trimming: an optional sign, then the unsigned parse; text with no digit gives `None` |
| JsText.ParseInt | src/context/ExerciseContext.jsx:226 | `parseInt(id)`: text with no digit at all is NaN (`None`) |
| JsText.ParseIntSkipsWhitespace | src/context/ExerciseContext.jsx:226 | leading white space never changes what `parseInt` reads |
| JsText.ParseIntNegated | src/context/ExerciseContext.jsx:226 | a minus sign before a numeral gives the negated number |
| JsText.NumeralReadsUnsigned | src/context/ExerciseContext.jsx:226 | a numeral followed by anything that is not a digit or `x` reads as its number |
| JsText.MinusNegates | src/context/ExerciseContext.jsx:226 | a minus sign negates what follows it |
| JsText.DecimalNumeralStart | src/context/ExerciseContext.jsx:226 | text that starts with a digit (and not `0x`) is neither trimmed nor signed nor hexadecimal |
| JsText.DigitPrefixOfNumeral | src/context/ExerciseContext.jsx:226 | reading digits stops exactly at the end of the numeral |
| JsText.ParseIntOfNumeral | src/context/ExerciseContext.jsx:226 | a numeral followed by anything that is not a digit or `x` parses back to its number |
| JsText.LowerChar | src/pages/Dashboard.jsx:22 | `toLowerCase` maps `A`–`Z` to `a`–`z` and leaves every other character alone |
| JsText.UpperChar | src/pages/Dashboard.jsx:22 | the inverse mapping of ASCII letters, used to state case-insensitivity |
| JsText.ToLower | src/pages/Dashboard.jsx:22 | `toLowerCase` on a string: same length, lower-cased position by position |
| JsText.ToUpper | src/pages/Dashboard.jsx:22 | upper-casing a string: same length, upper-cased position by position |
| JsText.LowerIgnoresCase | src/pages/Dashboard.jsx:22 | lower-casing forgets case: lower-casing an upper-cased or lower-cased text equals lower-casing the text |
| JsText.Includes | src/pages/Dashboard.jsx:22 | `s.includes(t)` holds exactly when `t` occurs in `s` at some position |
| JsText.LookupOrFinds | src/pages/History.jsx:29-38 | `table[key] \|\| fallback`: the first property named `key`, or the fallback when no property has that name |
| JsText.LookupOr | src/pages/History.jsx:29-49 | `table[key] \|\| fallback` over the listed properties; its contract is `JsText.LookupOrFinds`: the value of the first property named `key`, or the fallback when none has that name |
| Catalog.Find | src/context/ExerciseContext.jsx:226 | `find`: the first entry with that id, or `None` when no entry has it |
| Catalog.GetExerciseById | src/context/ExerciseContext.jsx:225-227 | a found exercise is a catalog entry whose id is the parsed route id; an unparseable id finds nothing |
| Catalog.CatalogIds | src/context/ExerciseContext.jsx:15-178 | the catalog holds 18 entries with ids 1 to 18 in order, pairwise distinct |
| Catalog.CatalogClassified | src/context/ExerciseContext.jsx:15-178 | every entry has one of the five categories and one of the three difficulties |
| Catalog.CatalogCategories | src/context/ExerciseContext.jsx:15-178 | every entry's category is one of the five |
| Catalog.CatalogDifficulties | src/context/ExerciseContext.jsx:15-178 | every entry's difficulty is one of the three |
| Catalog.FirstEntry | src/context/ExerciseContext.jsx:16-24 | the first of the 18 entries is Push-ups, Strength, id 1 |
| Catalog.GetExerciseByIdFinds | src/context/ExerciseContext.jsx:225-227 | a lookup finds an exercise if and only if the id parses to 1..18, and then finds entry n |
| Catalog.LookupByRouteId | src/context/ExerciseContext.jsx:225-227 | the route id written from an entry's id leads back to that entry |
| Statistics.TotalDuration | src/context/ExerciseContext.jsx:231 | the `reduce` summing the durations; `Statistics.TotalDurationBounds` proves no single duration exceeds it and `Statistics.TotalDurationAppend` that it adds up over concatenation |
| Statistics.TotalDurationBounds | src/context/ExerciseContext.jsx:231 | the summed durations bound every single duration |
| Statistics.TotalDurationAppend | src/context/ExerciseContext.jsx:231 | the total of a concatenation is the sum of the totals |
| Statistics.OnDay | src/context/ExerciseContext.jsx:235 | `filter(w => w.date === today)` never yields more records than the history holds |
| Statistics.OnDayMembers | src/context/ExerciseContext.jsx:235 | the filter keeps exactly the records of that day, in history order, each as often as it occurs in the history |
| Statistics.CountOn | src/context/ExerciseContext.jsx:235 | `todayWorkouts.length` for a given day; by `Statistics.OnDayMembers` it counts every record of that day, duplicates included |
| Statistics.AvgDuration | src/context/ExerciseContext.jsx:232 | the mean: 0 for an empty history, otherwise mean times count is the total; never negative |
| Statistics.Lookup | src/context/ExerciseContext.jsx:238 | `stats[c] \|\| 0`: a key that is absent counts 0 |
| Statistics.Keys | src/context/ExerciseContext.jsx:237-240 | the object's keys in insertion order |
| Statistics.Tally | src/context/ExerciseContext.jsx:238 | one increment: a new key is appended last, an old key keeps its place; the counts grow by one |
| Statistics.TallyLookup | src/context/ExerciseContext.jsx:238 | one increment raises the count of its own key by one and leaves every other key's count alone |
| Statistics.TallyKeepsShape | src/context/ExerciseContext.jsx:238 | an increment keeps keys distinct and counts positive |
| Statistics.TallyAll | src/context/ExerciseContext.jsx:237-240 | the `reduce` adds one count per record |
| Statistics.TallyAllLookup | src/context/ExerciseContext.jsx:237-240 | after the `reduce`, each key's count is the start count plus the records of that category |
| Statistics.TallyAllKeys | src/context/ExerciseContext.jsx:237-240 | after the `reduce`, the keys are the start keys plus the categories that occur |
| Statistics.TallyAllKeepsShape | src/context/ExerciseContext.jsx:237-240 | the `reduce` keeps keys distinct and counts positive |
| Statistics.CategoriesOfCons | src/context/ExerciseContext.jsx:237-240 | the categories of a history are the first record's category plus those of the rest |
| Statistics.CategoryStats | src/context/ExerciseContext.jsx:237-240 | `categoryStats`: the keys are exactly the categories that occur, each key once, each count the number of records in that category and positive; the counts add up to the history's length |
| Statistics.GetWorkoutStats | src/context/ExerciseContext.jsx:229-249 | count, total duration, mean (mean times count equals total), today's count and the category counts of the history |
| Statistics.PrependStats | src/context/ExerciseContext.jsx:215 | completing a workout raises the count by one, the total by its duration and its category's count by one |
| Statistics.DayEntry | src/context/ExerciseContext.jsx:259-265 | one day's `{date, workouts, duration}`; `Statistics.DayEntryZeroFilled` proves it carries that day, counts that day's records, and is zero exactly on days without records |
| Statistics.DayEntryZeroFilled | src/context/ExerciseContext.jsx:259-265 | a day's entry counts that day's records; it is zero exactly when no record has that date, and then its duration is zero |
| Statistics.DailySeries | src/context/ExerciseContext.jsx:251-269 | `getDailyStats(n)` has n entries, and none for n ≤ 0 |
| Statistics.DailySeriesAt | src/context/ExerciseContext.jsx:251-269 | entry k of the series is the entry of day `today - (n - 1) + k`, oldest first |
| Statistics.DailySeriesCharacterized | src/context/ExerciseContext.jsx:251-269 | a list with n entries, where entry k is that day's entry, is the series |
| Tracker.LoadHistory | src/context/ExerciseContext.jsx:180-183 | an absent or empty slot loads as `[]`; other text loads as what `JSON.parse` gives, and fails when the parse fails |
| Tracker.ReloadPersisted | src/context/ExerciseContext.jsx:180-189 | if decoding inverts encoding for the written history, both the code's loader and the corrected loader return that history |
| Tracker.MalformedSlotFails | src/context/ExerciseContext.jsx:180-183 | as written, a slot holding `{` makes loading fail |
| Tracker.LoadHistoryRecovering | src/context/ExerciseContext.jsx:180-183 | corrected loader: absent, empty or malformed slots load as `[]`; a readable slot loads as what it decodes to |
| Tracker.RecoveringAgrees | src/context/ExerciseContext.jsx:180-183 | the corrected loader agrees with the code wherever the code succeeds |
| Tracker.ExerciseStore.constructor | src/context/ExerciseContext.jsx:180-189 | the provider starts with the loaded history, no active workout, and the slot written |
| Tracker.ExerciseStore.StartWorkout | src/context/ExerciseContext.jsx:191-203 | a session of the exercise with id and start time `now`, duration 0 and status active fills the slot, replacing any session there; the history is unchanged |
| Tracker.ExerciseStore.CompleteWorkout | src/context/ExerciseContext.jsx:205-219 | with a session: its completed record goes first in the history, the slot is cleared and storage mirrors the history; without one: nothing changes and nothing is returned |
| Tracker.ExerciseStore.CancelWorkout | src/context/ExerciseContext.jsx:221-223 | clears the active slot and leaves the history |
| Tracker.ExerciseStore.GetDailyStats | src/context/ExerciseContext.jsx:251-269 | the per-day table built by the loop, listed oldest first, equals the series for the n days ending today |
| Tracker.Mount | src/context/ExerciseContext.jsx:180-189 | the store starts from the corrected loader's history with no active workout |
| SessionPage.FormatTime | src/pages/ExerciseSession.jsx:34-38 | `formatTime`: minutes, a colon, then seconds, each padded to two digits |
| SessionPage.ShortNumeral | src/pages/ExerciseSession.jsx:36-37 | a number below 100 prints in at most two digits |
| SessionPage.FormatTimeFields | src/pages/ExerciseSession.jsx:34-38 | the clock is a minutes field of at least two digits, a colon and a two-digit seconds field below 60; minutes × 60 + seconds reads back as the elapsed time |
| SessionPage.ClockSplit | src/pages/ExerciseSession.jsx:37 | two clock texts are equal only field by field |
| SessionPage.FormatTimeInjective | src/pages/ExerciseSession.jsx:34-38 | different elapsed times never show the same clock |
| SessionPage.SessionView.constructor | src/pages/ExerciseSession.jsx:15-20 | the page opens idle: not running, 0 s, not completed, no workout; the exercise is the lookup of the route id |
| SessionPage.SessionView.Render | src/pages/ExerciseSession.jsx:68-219 | not-found exactly when the id finds nothing; the completion view exactly after completing; otherwise Start/Resume when stopped (Start Workout only at 0 s), Pause when running, Complete only after time has elapsed |
| SessionPage.SessionView.HandleStart | src/pages/ExerciseSession.jsx:40-46 | the first start opens a workout of the page's exercise in the store; Resume keeps the same workout; the timer runs |
| SessionPage.SessionView.HandlePause | src/pages/ExerciseSession.jsx:48-50 | the timer stops and the elapsed seconds stay |
| SessionPage.SessionView.Tick | src/pages/ExerciseSession.jsx:22-32 | one interval callback adds a second only while running |
| SessionPage.SessionView.HandleComplete | src/pages/ExerciseSession.jsx:52-60 | the timer stops; the store's workout becomes the newest record, with the elapsed seconds; the completion view shows |
| SessionPage.SessionView.HandleCancel | src/pages/ExerciseSession.jsx:62-66 | the timer stops and the store's workout is dropped without a record |
| SessionPage.OpenFromCatalog | src/pages/ExerciseSession.jsx:11-20 | following a catalog entry's link opens an idle page for that entry |
| SessionPage.RunTimer | src/pages/ExerciseSession.jsx:22-32 | n interval callbacks add n seconds while running and none while paused |
| SessionPage.PushUpsScenario | src/pages/ExerciseSession.jsx:40-60 | start, 45 s, complete on Push-ups leaves exactly one 45-second Push-ups record |
| SessionPage.PauseResumeScenario | src/pages/ExerciseSession.jsx:40-60 | pause stops the clock and resume keeps the first start time: 10 s + 20 s record 30 s |
| SessionPage.CancelScenario | src/pages/ExerciseSession.jsx:40-66 | start then cancel leaves no record and no active workout |
| HistoryPage.FilterHistory | src/pages/History.jsx:19-21 | a record is listed exactly when the choice is `all` or it is of the chosen category, in history order |
| HistoryPage.FilterAllIsIdentity | src/pages/History.jsx:19-21 | `all` lists the whole history unchanged |
| HistoryPage.FilterIdempotent | src/pages/History.jsx:19-21 | filtering twice by one choice is filtering once |
| HistoryPage.CategoryFilterCount | src/pages/History.jsx:19-21 | a category's list has one entry per record of that category |
| HistoryPage.FilterCountMatchesStats | src/pages/History.jsx:19-21 | a category's list is as long as that category's count in the statistics |
| HistoryPage.FormatDuration | src/pages/History.jsx:23-27 | `formatDuration`; `HistoryPage.FormatDurationFields` proves it is `{m}m {s}s` with seconds below 60 and m × 60 + s equal to the duration |
| HistoryPage.FormatDurationFields | src/pages/History.jsx:23-27 | `{m}m {s}s` without padding: the seconds have one or two digits, no leading zero, and are below 60; minutes × 60 + seconds is the duration |
| HistoryPage.CategoryColor | src/pages/History.jsx:29-38 | `getCategoryColor`; `HistoryPage.KnownCategoryColors` proves the five categories get five distinct gradients, and `HistoryPage.UnknownCategoryDefaults` that any other category gets the gray one |
| HistoryPage.CategoryIcon | src/pages/History.jsx:40-49 | `getCategoryIcon`; `HistoryPage.UnknownCategoryDefaults` proves any other category gets the 💪 icon |
| HistoryPage.KnownCategoryColors | src/pages/History.jsx:29-38 | each of the five categories gets its own gradient, different from the others and never the gray default |
| HistoryPage.UnknownCategoryDefaults | src/pages/History.jsx:29-49 | any other category gets the gray gradient and the 💪 icon, which is also Strength's icon |
| DashboardPage.FilterLowered | src/pages/Dashboard.jsx:20-24 | an exercise is listed exactly when its category matches and the lower-cased term occurs in its lower-cased name, in catalog order |
| DashboardPage.FilterExercises | src/pages/Dashboard.jsx:20-24 | `filteredExercises`: `DashboardPage.FilterExercisesSpec` proves an exercise is listed exactly when its category matches and the lower-cased term occurs in its lower-cased name, in catalog order |
| DashboardPage.FilterExercisesSpec | src/pages/Dashboard.jsx:20-24 | the same, stated for the typed search term |
| DashboardPage.EmptyOccurs | src/pages/Dashboard.jsx:22 | the empty term occurs in every name |
| DashboardPage.FilterLoweredKeepsAll | src/pages/Dashboard.jsx:20-24 | with `all` and the empty term, the list is kept whole |
| DashboardPage.InitialListing | src/pages/Dashboard.jsx:14-24 | the initial choices list the whole catalog |
| DashboardPage.SearchIgnoresCase | src/pages/Dashboard.jsx:22 | typing the term in upper or lower case lists the same exercises |
| DashboardPage.RoundMinutes | src/pages/Dashboard.jsx:43 | `Math.round(d / 60)`: the nearest whole minute, within half a minute |
| DashboardPage.RoundHalfUp | src/pages/Dashboard.jsx:50 | `Math.round` of a non-negative real: the nearest integer, with halves rounded up |
| DashboardPage.RoundMinutesIsRound | src/pages/Dashboard.jsx:43 | the integer formula equals `Math.round` applied to the real quotient |
| DashboardPage.StatsCards | src/pages/Dashboard.jsx:26-55 | `statsCards`; `DashboardPage.StatsCardsReadBack` proves what each of the four cards reads back as |
| DashboardPage.StatsCardsReadBack | src/pages/Dashboard.jsx:26-55 | the cards read back as the workout count, today's count, the total rounded to minutes, and the mean duration rounded to minutes followed by `m` (`0m` for no history) |
| DashboardPage.AverageCard | src/pages/Dashboard.jsx:50 | the average card is a numeral reading back as the mean in minutes, halves rounded up, followed by `m` |
| DashboardPage.DifficultyColor | src/pages/Dashboard.jsx:57-64 | `getDifficultyColor`: the gray default is given exactly to a value that is not one of the three levels |
| DashboardPage.DifficultyColorsDistinct | src/pages/Dashboard.jsx:57-64 | the three levels get three different colours, none of them gray |
| DashboardPage.CatalogNeverGray | src/pages/Dashboard.jsx:57-64 | no catalog entry is shown with the gray default |
| AnalyticsPage.WeeklyData | src/pages/Analytics.jsx:33-37 | one chart row per day, same order, workouts copied, duration within half a minute of the rounded minutes |
| AnalyticsPage.ChartRowsOfPeriod | src/pages/Analytics.jsx:15-37 | the chart for period n has n rows; row k is day `today - n + 1 + k` with that day's workout count |
| AnalyticsPage.Within | src/pages/Analytics.jsx:144 | the records dated in a window never outnumber the history |
| AnalyticsPage.WithinMembers | src/pages/Analytics.jsx:144 | exactly the records dated after `lo` and no later than `hi`, in history order, each as often as it occurs in the history |
| AnalyticsPage.WithinSplit | src/pages/Analytics.jsx:144 | widening a window by one day adds that day's records |
| AnalyticsPage.EmptyWindow | src/pages/Analytics.jsx:144 | an empty window holds no record |
| AnalyticsPage.PeriodTotal | src/pages/Analytics.jsx:144 | the `reduce` adding the days' workouts; `AnalyticsPage.PeriodTotalCounts` proves it counts the records dated in the period |
| AnalyticsPage.PeriodTotalSnoc | src/pages/Analytics.jsx:144 | the `reduce` over one more day adds that day's workouts |
| AnalyticsPage.PeriodTotalStep | src/pages/Analytics.jsx:144 | a period one day longer totals that day's count more |
| AnalyticsPage.SeriesTotalIsDayCounts | src/pages/Analytics.jsx:144 | the total over the series is the sum of the per-day counts |
| AnalyticsPage.WindowIsDayCounts | src/pages/Analytics.jsx:144 | the records in the window number the sum of the per-day counts |
| AnalyticsPage.PeriodTotalCounts | src/pages/Analytics.jsx:144 | "This Period" counts exactly the records dated in the n days ending today |
| AnalyticsPage.PeriodChoices | src/pages/Analytics.jsx:15-43 | the page opens on 7 days, one of the buttons 7, 14 and 30; each button's chart has that many rows and its "This Period" counts the records of exactly those days |
| AnalyticsPage.PieColor | src/pages/Analytics.jsx:19-30 | `categoryColors[category] \|\| '#6b7280'`; by `JsText.LookupOrFinds` the listed colour of a category, and `#6b7280` for any other |
| AnalyticsPage.PieData | src/pages/Analytics.jsx:27-31 | one slice per category key in key order, carrying its count and its colour |
| AnalyticsPage.LookupAtDistinctKey | src/pages/Analytics.jsx:27-31 | with distinct keys, looking up a key gives that entry's count |
| AnalyticsPage.PieNamesAreKeys | src/pages/Analytics.jsx:27 | a name has a slice exactly when it is a key of the counts |
| AnalyticsPage.PieNamesCategories | src/pages/Analytics.jsx:27-31 | the slices name exactly the categories that occur in the history |
| AnalyticsPage.PieCountsCategories | src/pages/Analytics.jsx:27-31 | each slice carries its category's workout count, which is positive, and no category has two slices |
| AnalyticsPage.PieShownIffHistory | src/pages/Analytics.jsx:248 | there is a slice exactly when the history is not empty |
| AnalyticsPage.PieOfHistory | src/pages/Analytics.jsx:248 | the pie has a slice exactly when the history is non-empty; the slices are the categories that occur, each once, each with its positive workout count |

## Left out

- Rendering, animation, icons, layout and the `useDevice` breakpoints: only what a page shows and offers is modelled (`SessionPage.View`), and the other pages' derived data.
- Navigation (`navigate('/')` after cancel, and after 3 s on completion) and the 3-second timeout: the model stops at the state change.
- The interval timer itself: a tick is the method `SessionPage.SessionView.Tick`, so real time, drift and clean-up are not modelled.
- `localStorage`, `JSON.parse` and `JSON.stringify` are parameters. A failing storage write is not modelled.
- `Date.now()`, `new Date()` and `date-fns` formatting are not modelled: the time is the parameter `now` and the day is the parameter `today`. Local-time-zone date arithmetic and the `MMM dd` chart labels are left out.
- The period total is defined only for the three period choices and any other whole number of days. The period buttons (`AnalyticsPage.Periods`) are constants; pressing one is not modelled as a state change.
- Average duration is a real number, not a binary double: the floating-point rounding of `totalDuration / totalWorkouts` is not modelled.
- JsText.LowerChar: only `A`–`Z` are lower-cased; the full Unicode case mapping of `toLowerCase` is not modelled. The catalog names are ASCII, but the search term is typed by the user, and a non-ASCII term can match differently: JavaScript lower-cases U+212A (Kelvin sign) to `k`, so `"\u212Aettle"` lists Kettlebell Swings, while the model lists nothing.
- JsText.ToLower: lower-cases position by position with `JsText.LowerChar`, so it shares that ASCII-only mapping; it also keeps the length, which full Unicode lower-casing does not always do.
- JsText.ParseInt: the result is an exact integer, so values beyond 2^53 are not rounded as a JavaScript number would be.
- JsText.LookupOr: JavaScript object lookup also finds inherited properties (such as `constructor`), so a category with such a name would not get the default. The model finds only the listed properties; categories come from the catalog, so this does not arise.
- Statistics.CategoryStats: JavaScript lists integer-like keys before other keys. The model keeps plain insertion order, which agrees for the five category names.
- The context provider plumbing (`createContext`, `useExercise`), the router, and `App.jsx` wiring are outside this model.

## Findings

| source | as written | input that shows it | evidently intended | confidence | as-written member | corrected member |
|---|---|---|---|---|---|---|
| src/context/ExerciseContext.jsx:180-183 | a non-empty stored text goes straight to `JSON.parse`, which throws on malformed text, so the provider fails to mount | a `workoutHistory` slot holding `{` | malformed data falls back to an empty history without crashing | high (not executed) | Tracker.MalformedSlotFails | Tracker.LoadHistoryRecovering |
