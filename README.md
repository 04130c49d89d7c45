# fitleast — a Dafny model of the workout tracker's core

fitleast is a small iOS fitness app: the user follows a fixed three-day
workout split, checks off exercises, watches a streak counter, runs a rest
timer and sees colours given as hex strings. This project models the three
pieces of its logic that are not presentation, and proves what they promise.

- `workout_models.dfy`, module `WorkoutModels`: the `Exercise` and `Workout`
  records, the derived "workout is completed" flag, lookup by id (first
  match), toggling an exercise, the streak update, resetting a workout, the
  three seed workouts, and the `WorkoutManager` class whose methods update its
  `workouts` and `currentStreak` fields in place and write the list to the
  key-value store (a ghost field `stored`) after every change. Each method is
  specified by a pure function of the old state (`Toggled`, `ToggledStreak`,
  `ResetAt`, `DefaultWorkouts`), and the lemmas are about those functions.
- `timer_view.dfy`, module `TimerView`: the rest timer's countdown state
  (`timeRemaining`, `isRunning`, timer present or not) as a class whose
  methods are the view's start, stop, reset, set and tick actions and the
  play/pause button, each specified by a function on a `Countdown` value; the
  multi-tick lemmas are about those functions. Also the `MM:SS` formatter with
  the platform's truncating integer division and `%02d` padding.
- `hex_color.dfy`, module `HexColor`: stripping non-alphanumeric characters
  from both ends of a hex string, and splitting the scanned 64-bit value
  (`bv64`) into alpha, red, green and blue according to the stripped length.

Three points about the code as written:

- The streak follows `updateStreak`: one more if any workout is currently
  completed, otherwise back to zero. It is recomputed only when a toggle
  completes a workout.
- `toggleExerciseCompletion` returns nothing.
- The manager keeps no workout history. `workoutHistory` and
  `clearWorkoutHistory` are used by the history screen, but the manager's
  code does not have them.

The store is a ghost `Option<seq<Workout>>`; `None` means the key is absent or
cannot be decoded. The constructor takes the decoded store content as input.
The class invariant `Valid()` says that the store always holds exactly the
current list and that the streak is never negative. The constructor,
`ToggleExerciseCompletion` and `ResetWorkout` keep it, whether or not the id
was found. `LoadWorkouts` is called only from the constructor, which first
sets the store to the same content it loads from; it requires that the store
holds what it is given, and restores the invariant whenever that content
decodes.

A reset clears the workout's flag even when the workout has no exercises,
although "all exercises completed" is vacuously true for it. So the
derived-field invariant survives a reset only for workouts with at least one
exercise (`ResetKeepsConsistent`, `ResetEmptyWorkout`). The seed workouts all
have exercises.

## Model

| member | source | states |
|---|---|---|
| `WorkoutModels.CompletedCountAll` | fitleast/Views/HomeView.swift:135-137 | the number of completed exercises equals the number of exercises exactly when every exercise is completed |
| `WorkoutModels.IndexOf` | fitleast/Models/WorkoutModels.swift:58-59 | `firstIndex(where:)` on ids: a found position holds the id and no earlier element has it; no position means no element has the id |
| `WorkoutModels.FindFirst` | fitleast/Models/WorkoutModels.swift:76 | the front-to-back search returns exactly the first position of the id, or none |
| `WorkoutModels.IndexOfSameKeys` | fitleast/Models/WorkoutModels.swift:58-59 | two lists whose ids agree position by position give the same first match, so updates that keep ids find the same workout and exercise again |
| `WorkoutModels.Locate` | fitleast/Models/WorkoutModels.swift:58-59 | when both lookups succeed, the two positions are valid indices into the list and into that workout's exercises |
| `WorkoutModels.ToggleFrame` | fitleast/Models/WorkoutModels.swift:58-65 | a found toggle flips only the matched exercise's flag; ids, names, days, sets, reps, exercise order and all other workouts stay the same; the workout's flag becomes "all exercises completed" |
| `WorkoutModels.ToggleMiss` | fitleast/Models/WorkoutModels.swift:57-73 | an unknown workout or exercise id leaves the list and the streak unchanged |
| `WorkoutModels.ToggleKeepsConsistent` | fitleast/Models/WorkoutModels.swift:63-65 | if every workout satisfied the derived-field invariant before a toggle, every workout satisfies it after |
| `WorkoutModels.ToggleStreak` | fitleast/Models/WorkoutModels.swift:45-69 | a toggle that leaves its workout fully complete raises the streak by exactly one; any other toggle leaves it unchanged; so a toggle never lowers the streak |
| `WorkoutModels.ToggleTwice` | fitleast/Models/WorkoutModels.swift:61-65 | toggling the same exercise twice restores the list except that the workout's flag is recomputed; when the derived-field invariant held, the list is restored exactly |
| `WorkoutModels.ResetEffect` | fitleast/Models/WorkoutModels.swift:75-83 | a reset of a found workout makes it and every exercise incomplete and keeps ids, names, days, sets, reps and all other workouts; an unknown id changes nothing |
| `WorkoutModels.ResetIdempotent` | fitleast/Models/WorkoutModels.swift:75-83 | resetting twice equals resetting once |
| `WorkoutModels.ResetKeepsConsistent` | fitleast/Models/WorkoutModels.swift:77-80 | a reset keeps the derived-field invariant of every workout when the reset workout has at least one exercise |
| `WorkoutModels.ResetEmptyWorkout` | fitleast/Models/WorkoutModels.swift:77-80 | resetting a workout without exercises leaves it marked incomplete although all (none) of its exercises are completed |
| `WorkoutModels.SeedTogglesState` | fitleast/Models/WorkoutModels.swift:58-65 | after toggling the first k exercises of the first seed workout in order, exactly those k are completed, the ids are unchanged, and the workout is complete exactly when k is 5 |
| `WorkoutModels.SeedToggleStep` | fitleast/Models/WorkoutModels.swift:57-69 | from a zero streak, the k-th of those toggles leaves the streak at 0 for k < 5 and raises it to 1 for k = 5 |
| `WorkoutModels.SeedScenario` | fitleast/Models/WorkoutModels.swift:45-69 | from the seed with a zero streak, toggling the five exercises of the first workout in order keeps the streak at 0 for four toggles, raises it to 1 on the fifth, and leaves the workout complete |
| `WorkoutModels.DefaultWorkouts` | fitleast/Models/WorkoutModels.swift:85-121 | exactly three workouts for days 1, 2 and 3 with 5, 6 and 5 exercises, every flag false, every workout consistent |
| `WorkoutModels.WorkoutManager.constructor` | fitleast/Models/WorkoutModels.swift:25-30 | the list is the loaded one when loading yields a non-empty list and the seed workouts otherwise; the streak is 0; the store holds the list |
| `WorkoutModels.WorkoutManager.LoadWorkouts` | fitleast/Models/WorkoutModels.swift:38-43 | decoded data replaces the list and the store again mirrors it; without it the list is unchanged |
| `WorkoutModels.WorkoutManager.SaveWorkouts` | fitleast/Models/WorkoutModels.swift:32-36 | the store holds the current list |
| `WorkoutModels.WorkoutManager.UpdateStreak` | fitleast/Models/WorkoutModels.swift:45-55 | the streak goes up by one if any workout is completed and to zero otherwise, and stays non-negative |
| `WorkoutModels.WorkoutManager.ToggleExerciseCompletion` | fitleast/Models/WorkoutModels.swift:57-73 | the new list and streak are `Toggled` and `ToggledStreak` of the old ones; the store holds the new list; a miss changes nothing at all |
| `WorkoutModels.WorkoutManager.ResetWorkout` | fitleast/Models/WorkoutModels.swift:75-83 | the new list is `ResetAt` of the old one; the streak is unchanged; the store holds the new list; an unknown id changes nothing |
| `WorkoutModels.WorkoutManager.SetupDefaultWorkouts` | fitleast/Models/WorkoutModels.swift:85-123 | the list becomes the three seed workouts and the store holds it |
| `TimerView.InitialState` | fitleast/Views/TimerView.swift:7-9 | the timer starts at 60 seconds, stopped, with no timer scheduled |
| `TimerView.OperationsKeepWellFormed` | fitleast/Views/TimerView.swift:61-91 | every action keeps "a timer exists exactly while running" |
| `TimerView.TickStep` | fitleast/Views/TimerView.swift:63-67 | a tick decrements by exactly one while time is left and otherwise stops and leaves the time as it is, so the time never goes negative |
| `TimerView.TicksNeverNegative` | fitleast/Views/TimerView.swift:63-67 | from a non-negative time, any number of ticks keeps the time between zero and where it started |
| `TimerView.TicksCountDown` | fitleast/Views/TimerView.swift:63-65 | from n seconds, k ≤ n ticks leave n − k seconds and change nothing else |
| `TimerView.RunsDownToZero` | fitleast/Views/TimerView.swift:62-67 | a running countdown from n ≥ 0 reaches zero after exactly n ticks, still running, and the next tick stops it at zero |
| `TimerView.ButtonsStop` | fitleast/Views/TimerView.swift:77-91 | stop leaves the countdown stopped without a timer; reset always gives 60 seconds, stopped; set to s always gives s seconds, stopped |
| `TimerView.PlayPauseFlips` | fitleast/Views/TimerView.swift:19-24 | the play/pause button flips whether the timer runs and keeps the time; two presses restore a well-formed state |
| `TimerView.TimerView.constructor` | fitleast/Views/TimerView.swift:7-9 | the view's state is the initial countdown |
| `TimerView.TimerView.StartTimer` | fitleast/Views/TimerView.swift:61-63 | the new state is `Start` of the old: running, timer scheduled, time unchanged; a timer exists exactly while running, before and after |
| `TimerView.TimerView.StopTimer` | fitleast/Views/TimerView.swift:77-81 | the new state is `Stop` of the old: stopped, no timer, time unchanged; a timer exists exactly while running, before and after |
| `TimerView.TimerView.TimerFired` | fitleast/Views/TimerView.swift:63-74 | fired only while a timer is scheduled, the new state is `Tick` of the old; a timer exists exactly while running, before and after |
| `TimerView.TimerView.ResetTimer` | fitleast/Views/TimerView.swift:83-86 | the new state is `Reset` of the old; a timer exists exactly while running, before and after |
| `TimerView.TimerView.SetTimer` | fitleast/Views/TimerView.swift:88-91 | the new state is `SetTo` of the old and the given seconds; a timer exists exactly while running, before and after |
| `TimerView.TimerView.PlayPauseTapped` | fitleast/Views/TimerView.swift:19-24 | the new state is `PlayPause` of the old; running flips; a timer exists exactly while running |
| `TimerView.Rem` | fitleast/Views/TimerView.swift:94-95 | quotient times 60 plus remainder gives the seconds back; the remainder is in [0, 60) for non-negative input and in (−60, 0] for negative input |
| `TimerView.Digits` | fitleast/Views/TimerView.swift:96 | the numeral is non-empty and made of decimal digits |
| `TimerView.DigitsRoundTrip` | fitleast/Views/TimerView.swift:96 | reading the numeral back gives the number; it has one digit exactly when the number is below ten |
| `TimerView.Pad2Value` | fitleast/Views/TimerView.swift:96 | `%02d` of n ≥ 0 is a digit string worth n, at least two wide, exactly two wide when n < 100 |
| `TimerView.TimeStringRoundTrip` | fitleast/Views/TimerView.swift:93-97 | for 0 ≤ s < 6000 the display is five characters `MM:SS`, the seconds field is below 60, and minutes × 60 + seconds read back gives s |
| `TimerView.PresetStrings` | fitleast/Views/TimerView.swift:45-51 | the three presets display as "00:30", "01:00" and "01:30" |
| `TimerView.NegativeString` | fitleast/Views/TimerView.swift:93-97 | with truncating division, −90 seconds displays as "-1:-30" |
| `HexColor.TrimStart` | fitleast/Views/WorkoutPlayerView.swift:143 | the result is a suffix of the input, everything dropped is non-alphanumeric, and the result is empty or starts with a letter or digit |
| `HexColor.TrimEnd` | fitleast/Views/WorkoutPlayerView.swift:143 | the result is a prefix of the input, everything dropped is non-alphanumeric, and the result is empty or ends with a letter or digit |
| `HexColor.Trim` | fitleast/Views/WorkoutPlayerView.swift:143 | the trimmed string is empty or begins and ends with a letter or digit |
| `HexColor.TrimHash` | fitleast/Views/WorkoutPlayerView.swift:143 | a leading `#` does not change the trimmed string |
| `HexColor.TrimAlphanumeric` | fitleast/Views/WorkoutPlayerView.swift:143 | a string of letters and digits is left as it is |
| `HexColor.NibbleTimes17` | fitleast/Views/WorkoutPlayerView.swift:149 | multiplying a nibble by 17 writes it into both halves of a byte: 0x0 gives 0 and 0xF gives 255 |
| `HexColor.Rgb12Bounds` | fitleast/Views/WorkoutPlayerView.swift:148-149 | length 3: alpha is 255, green and blue fit in a byte, and red fits in a byte exactly when the value is below 0x1000 |
| `HexColor.Rgb12Nibbles` | fitleast/Views/WorkoutPlayerView.swift:148-149 | length 3, value below 0x1000: each nibble is duplicated into its component, and the components' low nibbles reassemble the value |
| `HexColor.Rgb24` | fitleast/Views/WorkoutPlayerView.swift:150-151 | length 6: alpha is 255, green and blue fit in a byte, red fits in a byte exactly when the value is below 2^24, and then r·65536 + g·256 + b equals the value |
| `HexColor.Argb32` | fitleast/Views/WorkoutPlayerView.swift:152-153 | length 8: red, green and blue fit in a byte, alpha fits exactly when the value is below 2^32, and then the four bytes reassemble the value |
| `HexColor.OtherLengths` | fitleast/Views/WorkoutPlayerView.swift:154-155 | any other length gives (1, 1, 1, 0) whatever was scanned |
| `HexColor.HashIgnored` | fitleast/Views/WorkoutPlayerView.swift:143-147 | "#…" and "…" give the same components for the same scanned value |
| `HexColor.PlayerBackground` | fitleast/Views/WorkoutPlayerView.swift:68 | "1A1A1A" gives alpha 255 and 26 in each channel |

## Left out

- JSON encoding and decoding and `UserDefaults` are foreign library calls. The store is a ghost field. Encoding and decoding are taken to be inverse. An encoding failure, which makes a save do nothing, is not modelled.
- UUID generation is randomness. Ids are natural numbers, and the 19 ids the seed workouts need are an input to the constructor.
- `currentStreak` is a 64-bit `Int`, and `+= 1` traps at its maximum. The model uses unbounded integers.
- `ObservableObject` change publishing is not modelled. It carries no data.
- Timer scheduling on the run loop, `invalidate`, and the haptic feedback when the countdown ends are platform calls. The timer is a flag, and the closure body is the `TimerFired` method. Calling `startTimer` a second time while running would orphan the first timer. The view never does this, because play/pause starts only when stopped, and the flag cannot represent two timers.
- `String(format: "%02d")` is modelled for integers of any size. Foundation's treatment of values outside 32 bits is not modelled.
- `Scanner.scanHexInt64` is a library call. The scanned value is an input. A string of n characters scans to less than 16^n. The lemmas state this as the bound under which components fit in a byte, and do not derive it.
- `CharacterSet.alphanumerics` covers all Unicode letters and digits, and `String.count` counts grapheme clusters. The model treats only ASCII letters and digits as alphanumeric and counts characters.
- The `Double` division that turns components into a colour is floating point.
- WorkoutPlayerView's elapsed-time player is not modelled. Its start, pause, reset, elapsed-time update and centisecond display are floating point and wall-clock time.
- The progress fractions and colour thresholds of the home and detail screens use `Double` division.
- Layout, navigation, sheets, alerts, previews, appearance setup and the confetti animation are presentation, randomness and physics.
- Workout history, `clearWorkoutHistory` and `displayTabBar` are not modelled. The history screen refers to them, but the workout manager does not define them.
