/**
 * The workout data model and its manager: an ordered list of workouts, each
 * an ordered list of exercises, a derived per-workout completion flag, a
 * streak counter, and a key-value store that is written after every change.
 */
module WorkoutModels {

  /** Identifiers stand for the UUIDs the app generates; only equality matters. */
  type Id = nat

  datatype Option<T> = None | Some(value: T)

  datatype Exercise = Exercise(id: Id, name: string, sets: int, reps: string, isCompleted: bool)

  datatype Workout = Workout(id: Id, name: string, day: int, exercises: seq<Exercise>, isCompleted: bool)

  // ---------------------------------------------------------------------------
  // Derived state
  // ---------------------------------------------------------------------------

  /** `allSatisfy { $0.isCompleted }` over a workout's exercises. */
  predicate AllCompleted(es: seq<Exercise>) {
    forall k :: 0 <= k < |es| ==> es[k].isCompleted
  }

  /** `!workouts.filter { $0.isCompleted }.isEmpty` */
  predicate AnyCompleted(ws: seq<Workout>) {
    exists i :: 0 <= i < |ws| && ws[i].isCompleted
  }

  /** The derived-field invariant: a workout is completed exactly when all its exercises are. */
  predicate Consistent(w: Workout) {
    w.isCompleted == AllCompleted(w.exercises)
  }

  predicate AllConsistent(ws: seq<Workout>) {
    forall i :: 0 <= i < |ws| ==> Consistent(ws[i])
  }

  /** The number of completed exercises of a workout, as the home screen counts them. */
  function CompletedCount(es: seq<Exercise>): (n: nat)
    ensures n <= |es|
  {
    if es == [] then 0
    else (if es[0].isCompleted then 1 else 0) + CompletedCount(es[1..])
  }

  lemma {:induction false} CompletedCountAll(es: seq<Exercise>)
    ensures CompletedCount(es) == |es| <==> AllCompleted(es)
  {
    if es != [] {
      CompletedCountAll(es[1..]);
      if AllCompleted(es[1..]) && es[0].isCompleted {
        forall k | 0 <= k < |es| ensures es[k].isCompleted {
          if k > 0 { assert es[k] == es[1..][k - 1]; }
        }
      }
      if AllCompleted(es) {
        forall k | 0 <= k < |es[1..]| ensures es[1..][k].isCompleted {
          assert es[1..][k] == es[k + 1];
        }
      }
    }
  }

  // ---------------------------------------------------------------------------
  // Lookup: `firstIndex(where: { $0.id == id })`
  // ---------------------------------------------------------------------------

  function IdOfWorkout(w: Workout): Id { w.id }

  function IdOfExercise(e: Exercise): Id { e.id }

  /** The first position whose element has the given id, if any. */
  function IndexOf<T>(s: seq<T>, key: T -> Id, id: Id): (r: Option<nat>)
    ensures r.Some? ==> r.value < |s| && key(s[r.value]) == id
    ensures r.Some? ==> forall j :: 0 <= j < r.value ==> key(s[j]) != id
    ensures r.None? ==> forall j :: 0 <= j < |s| ==> key(s[j]) != id
  {
    if s == [] then None
    else if key(s[0]) == id then Some(0)
    else match IndexOf(s[1..], key, id)
      case None => None
      case Some(k) => Some(k + 1)
  }

  function WorkoutIndex(ws: seq<Workout>, id: Id): Option<nat> {
    IndexOf(ws, IdOfWorkout, id)
  }

  function ExerciseIndex(es: seq<Exercise>, id: Id): Option<nat> {
    IndexOf(es, IdOfExercise, id)
  }

  /** Linear search for an id, front to back. */
  method FindFirst<T>(s: seq<T>, key: T -> Id, id: Id) returns (r: Option<nat>)
    ensures r == IndexOf(s, key, id)
  {
    var i := 0;
    while i < |s|
      invariant 0 <= i <= |s|
      invariant forall j :: 0 <= j < i ==> key(s[j]) != id
    {
      if key(s[i]) == id {
        return Some(i);
      }
      i := i + 1;
    }
    return None;
  }

  /** Sequences whose ids agree position by position have the same first matches. */
  lemma {:induction false} IndexOfSameKeys<T>(s: seq<T>, t: seq<T>, key: T -> Id, id: Id)
    requires |s| == |t| && forall i :: 0 <= i < |s| ==> key(s[i]) == key(t[i])
    ensures IndexOf(s, key, id) == IndexOf(t, key, id)
  {
    if s != [] && key(s[0]) != id {
      IndexOfSameKeys(s[1..], t[1..], key, id);
    }
  }

  // ---------------------------------------------------------------------------
  // Toggling one exercise
  // ---------------------------------------------------------------------------

  /** The workout and exercise positions a toggle acts on, if both ids are found. */
  function Locate(ws: seq<Workout>, workoutId: Id, exerciseId: Id): (r: Option<(nat, nat)>)
    ensures r.Some? ==> r.value.0 < |ws| && r.value.1 < |ws[r.value.0].exercises|
  {
    match WorkoutIndex(ws, workoutId)
    case None => None
    case Some(wi) =>
      match ExerciseIndex(ws[wi].exercises, exerciseId)
      case None => None
      case Some(ei) => Some((wi, ei))
  }

  /** Flip exercise `k` of `w` and recompute the workout's derived flag. */
  function ToggleAt(w: Workout, k: nat): Workout
    requires k < |w.exercises|
  {
    var es := w.exercises[k := w.exercises[k].(isCompleted := !w.exercises[k].isCompleted)];
    w.(exercises := es, isCompleted := AllCompleted(es))
  }

  /** The workout list after `toggleExerciseCompletion(workoutId, exerciseId)`. */
  function Toggled(ws: seq<Workout>, workoutId: Id, exerciseId: Id): seq<Workout>
  {
    match Locate(ws, workoutId, exerciseId)
    case None => ws
    case Some((wi, ei)) => ws[wi := ToggleAt(ws[wi], ei)]
  }

  /** `updateStreak()`: one more if any workout is completed, otherwise back to zero. */
  function StreakUpdate(ws: seq<Workout>, streak: int): int {
    if AnyCompleted(ws) then streak + 1 else 0
  }

  /** The streak after `toggleExerciseCompletion`: updated only when the toggled workout is now complete. */
  function ToggledStreak(ws: seq<Workout>, streak: int, workoutId: Id, exerciseId: Id): int
  {
    match Locate(ws, workoutId, exerciseId)
    case None => streak
    case Some((wi, ei)) =>
      var ws' := ws[wi := ToggleAt(ws[wi], ei)];
      if ws'[wi].isCompleted then StreakUpdate(ws', streak) else streak
  }

  /** Whether the toggle finds its exercise and leaves that workout fully complete. */
  predicate CompletesWorkout(ws: seq<Workout>, workoutId: Id, exerciseId: Id) {
    match Locate(ws, workoutId, exerciseId)
    case None => false
    case Some((wi, ei)) => AllCompleted(ToggleAt(ws[wi], ei).exercises)
  }

  /**
   * A toggle that finds its target flips exactly that exercise's flag,
   * recomputes that workout's derived flag, and changes nothing else.
   */
  lemma ToggleFrame(ws: seq<Workout>, workoutId: Id, exerciseId: Id, wi: nat, ei: nat)
    requires Locate(ws, workoutId, exerciseId) == Some((wi, ei))
    ensures var r := Toggled(ws, workoutId, exerciseId);
      && |r| == |ws|
      && (forall j :: 0 <= j < |ws| && j != wi ==> r[j] == ws[j])
      && r[wi].id == ws[wi].id && r[wi].name == ws[wi].name && r[wi].day == ws[wi].day
      && |r[wi].exercises| == |ws[wi].exercises|
      && (forall k :: 0 <= k < |ws[wi].exercises| && k != ei ==> r[wi].exercises[k] == ws[wi].exercises[k])
      && r[wi].exercises[ei] == ws[wi].exercises[ei].(isCompleted := !ws[wi].exercises[ei].isCompleted)
      && Consistent(r[wi])
  {
  }

  /** A toggle whose workout or exercise id is unknown changes neither the list nor the streak. */
  lemma ToggleMiss(ws: seq<Workout>, streak: int, workoutId: Id, exerciseId: Id)
    requires WorkoutIndex(ws, workoutId).None?
      || ExerciseIndex(ws[WorkoutIndex(ws, workoutId).value].exercises, exerciseId).None?
    ensures Toggled(ws, workoutId, exerciseId) == ws
    ensures ToggledStreak(ws, streak, workoutId, exerciseId) == streak
  {
  }

  /** Toggling keeps the derived-field invariant of every workout. */
  lemma ToggleKeepsConsistent(ws: seq<Workout>, workoutId: Id, exerciseId: Id)
    requires AllConsistent(ws)
    ensures AllConsistent(Toggled(ws, workoutId, exerciseId))
  {
  }

  /**
   * The streak rises by exactly one when the toggle leaves its workout fully
   * complete and is unchanged otherwise: the reset-to-zero branch of the
   * streak update cannot be reached from a toggle.
   */
  lemma ToggleStreak(ws: seq<Workout>, streak: int, workoutId: Id, exerciseId: Id)
    ensures ToggledStreak(ws, streak, workoutId, exerciseId)
         == if CompletesWorkout(ws, workoutId, exerciseId) then streak + 1 else streak
    ensures ToggledStreak(ws, streak, workoutId, exerciseId) >= streak
  {
    match Locate(ws, workoutId, exerciseId)
    case None =>
    case Some((wi, ei)) =>
      var ws' := ws[wi := ToggleAt(ws[wi], ei)];
      if ws'[wi].isCompleted {
        assert AnyCompleted(ws');
      }
  }

  /**
   * Toggling the same exercise twice restores the list, except that the
   * workout's flag ends up recomputed; so it restores the list exactly when
   * that workout satisfied the derived-field invariant.
   */
  lemma {:induction false} ToggleTwice(ws: seq<Workout>, workoutId: Id, exerciseId: Id)
    ensures Locate(ws, workoutId, exerciseId).None? ==>
      Toggled(Toggled(ws, workoutId, exerciseId), workoutId, exerciseId) == ws
    ensures Locate(ws, workoutId, exerciseId).Some? ==>
      var wi := Locate(ws, workoutId, exerciseId).value.0;
      Toggled(Toggled(ws, workoutId, exerciseId), workoutId, exerciseId)
        == ws[wi := ws[wi].(isCompleted := AllCompleted(ws[wi].exercises))]
    ensures AllConsistent(ws) ==>
      Toggled(Toggled(ws, workoutId, exerciseId), workoutId, exerciseId) == ws
  {
    match Locate(ws, workoutId, exerciseId)
    case None =>
    case Some((wi, ei)) =>
      var once := Toggled(ws, workoutId, exerciseId);
      IndexOfSameKeys(ws, once, IdOfWorkout, workoutId);
      IndexOfSameKeys(ws[wi].exercises, once[wi].exercises, IdOfExercise, exerciseId);
      assert Locate(once, workoutId, exerciseId) == Some((wi, ei));
      var w := ws[wi];
      assert once[wi].exercises[ei := w.exercises[ei]] == w.exercises;
  }

  // ---------------------------------------------------------------------------
  // Resetting a workout
  // ---------------------------------------------------------------------------

  /** Every exercise with its flag cleared, in the same order. */
  function Cleared(es: seq<Exercise>): seq<Exercise>
  {
    seq(|es|, k requires 0 <= k < |es| => es[k].(isCompleted := false))
  }

  /** The workout list after `resetWorkout(workoutId)`. */
  function ResetAt(ws: seq<Workout>, workoutId: Id): seq<Workout>
  {
    match WorkoutIndex(ws, workoutId)
    case None => ws
    case Some(wi) => ws[wi := ws[wi].(exercises := Cleared(ws[wi].exercises), isCompleted := false)]
  }

  /**
   * A reset of a found workout leaves it and all its exercises incomplete,
   * keeps every id, name, sets and reps, and leaves every other workout as it was;
   * an unknown id changes nothing.
   */
  lemma ResetEffect(ws: seq<Workout>, workoutId: Id)
    ensures WorkoutIndex(ws, workoutId).None? ==> ResetAt(ws, workoutId) == ws
    ensures WorkoutIndex(ws, workoutId).Some? ==>
      var wi := WorkoutIndex(ws, workoutId).value;
      var r := ResetAt(ws, workoutId);
      && |r| == |ws|
      && (forall j :: 0 <= j < |ws| && j != wi ==> r[j] == ws[j])
      && !r[wi].isCompleted
      && r[wi].id == ws[wi].id && r[wi].name == ws[wi].name && r[wi].day == ws[wi].day
      && |r[wi].exercises| == |ws[wi].exercises|
      && (forall k :: 0 <= k < |r[wi].exercises| ==>
            !r[wi].exercises[k].isCompleted && r[wi].exercises[k].id == ws[wi].exercises[k].id
            && r[wi].exercises[k].name == ws[wi].exercises[k].name
            && r[wi].exercises[k].sets == ws[wi].exercises[k].sets
            && r[wi].exercises[k].reps == ws[wi].exercises[k].reps)
  {
  }

  /** Resetting twice is the same as resetting once. */
  lemma {:induction false} ResetIdempotent(ws: seq<Workout>, workoutId: Id)
    ensures ResetAt(ResetAt(ws, workoutId), workoutId) == ResetAt(ws, workoutId)
  {
    var once := ResetAt(ws, workoutId);
    IndexOfSameKeys(ws, once, IdOfWorkout, workoutId);
    match WorkoutIndex(ws, workoutId)
    case None =>
    case Some(wi) =>
      assert Cleared(once[wi].exercises) == once[wi].exercises;
  }

  /**
   * Resetting keeps the derived-field invariant as long as the reset workout
   * has at least one exercise.
   */
  lemma ResetKeepsConsistent(ws: seq<Workout>, workoutId: Id)
    requires AllConsistent(ws)
    requires WorkoutIndex(ws, workoutId).Some? ==> ws[WorkoutIndex(ws, workoutId).value].exercises != []
    ensures AllConsistent(ResetAt(ws, workoutId))
  {
    match WorkoutIndex(ws, workoutId)
    case None =>
    case Some(wi) =>
      var r := ResetAt(ws, workoutId);
      assert !r[wi].exercises[0].isCompleted;
  }

  /**
   * A workout without exercises counts as all-completed, yet a reset marks it
   * incomplete: the reset leaves such a workout inconsistent.
   */
  lemma ResetEmptyWorkout(ws: seq<Workout>, workoutId: Id)
    requires WorkoutIndex(ws, workoutId).Some?
    requires ws[WorkoutIndex(ws, workoutId).value].exercises == []
    ensures !Consistent(ResetAt(ws, workoutId)[WorkoutIndex(ws, workoutId).value])
  {
  }

  // ---------------------------------------------------------------------------
  // Seed data
  // ---------------------------------------------------------------------------

  /** The number of fresh identifiers the three seed workouts consume (3 workouts, 16 exercises). */
  const SeedIdCount: nat := 19

  function Ex(id: Id, name: string, sets: int, reps: string): Exercise {
    Exercise(id, name, sets, reps, false)
  }

  /** The three fixed workouts installed when nothing was loaded; `ids` supplies the fresh UUIDs. */
  function DefaultWorkouts(ids: seq<Id>): (r: seq<Workout>)
    requires |ids| == SeedIdCount
    ensures |r| == 3
    ensures r[0].day == 1 && r[1].day == 2 && r[2].day == 3
    ensures |r[0].exercises| == 5 && |r[1].exercises| == 6 && |r[2].exercises| == 5
    ensures forall i :: 0 <= i < 3 ==> !r[i].isCompleted
    ensures forall i, k :: 0 <= i < 3 && 0 <= k < |r[i].exercises| ==> !r[i].exercises[k].isCompleted
    ensures AllConsistent(r)
  {
    var r := [ Workout(ids[0], "Chest - Triceps - Cardio", 1, [
        Ex(ids[1], "Bench Press", 3, "8-10"),
        Ex(ids[2], "Incline Bench Press", 3, "10"),
        Ex(ids[3], "Triceps Pushdown", 3, "12"),
        Ex(ids[4], "Dumbbell Kickback", 2, "12"),
        Ex(ids[5], "Treadmill Walk/Jog", 1, "10-15 min")
      ], false),
      Workout(ids[6], "Back - Biceps - Abs", 2, [
        Ex(ids[7], "Lat Pulldown", 3, "10"),
        Ex(ids[8], "Seated Row", 3, "10"),
        Ex(ids[9], "Barbell Curl", 3, "12"),
        Ex(ids[10], "Dumbbell Hammer Curl", 2, "10"),
        Ex(ids[11], "Plank", 2, "1 min"),
        Ex(ids[12], "Russian Twist", 2, "20")
      ], false),
      Workout(ids[13], "Legs - Shoulders - Cardio", 3, [
        Ex(ids[14], "Squat", 3, "12"),
        Ex(ids[15], "Leg Press", 3, "10"),
        Ex(ids[16], "Dumbbell Shoulder Press", 3, "10"),
        Ex(ids[17], "Lateral Raise", 2, "12"),
        Ex(ids[18], "Elliptical / Walking", 1, "10-15 min")
      ], false)
    ];
    assert forall i :: 0 <= i < 3 ==> !r[i].exercises[0].isCompleted;
    r
  }

  /** The seed workouts after toggling the first `k` exercises of the first workout, in order. */
  function SeedToggles(ids: seq<Id>, k: nat): seq<Workout>
    requires |ids| == SeedIdCount && k <= 5
  {
    if k == 0 then DefaultWorkouts(ids) else Toggled(SeedToggles(ids, k - 1), ids[0], ids[k])
  }

  /** An element that has the id, with no earlier one having it, is the first match. */
  lemma IndexOfAt<T>(s: seq<T>, key: T -> Id, id: Id, k: nat)
    requires k < |s| && key(s[k]) == id
    requires forall j :: 0 <= j < k ==> key(s[j]) != id
    ensures IndexOf(s, key, id) == Some(k)
  {
  }

  lemma {:induction false} SeedTogglesState(ids: seq<Id>, k: nat)
    requires |ids| == SeedIdCount && k <= 5
    requires forall p, q :: 1 <= p < q <= 5 ==> ids[p] != ids[q]
    ensures var ws := SeedToggles(ids, k);
      && |ws| == 3 && ws[0].id == ids[0] && |ws[0].exercises| == 5
      && (forall j :: 0 <= j < 5 ==> ws[0].exercises[j].id == ids[j + 1])
      && (forall j :: 0 <= j < 5 ==> ws[0].exercises[j].isCompleted == (j < k))
      && ws[0].isCompleted == (k == 5)
  {
    if k > 0 {
      SeedTogglesState(ids, k - 1);
      var prev := SeedToggles(ids, k - 1);
      IndexOfAt(prev, IdOfWorkout, ids[0], 0);
      IndexOfAt(prev[0].exercises, IdOfExercise, ids[k], k - 1);
      assert Locate(prev, ids[0], ids[k]) == Some((0, (k - 1) as nat));
      var next := ToggleAt(prev[0], k - 1);
      assert SeedToggles(ids, k) == prev[0 := next];
      assert forall j :: 0 <= j < 5 ==> next.exercises[j].isCompleted == (j < k);
      if k < 5 {
        assert !next.exercises[4].isCompleted;
      } else {
        assert AllCompleted(next.exercises);
      }
    }
  }

  /** The `k`-th toggle of the scenario completes the workout exactly when it is the fifth. */
  lemma SeedToggleStep(ids: seq<Id>, k: nat)
    requires |ids| == SeedIdCount && 1 <= k <= 5
    requires forall p, q :: 1 <= p < q <= 5 ==> ids[p] != ids[q]
    ensures ToggledStreak(SeedToggles(ids, k - 1), 0, ids[0], ids[k]) == if k == 5 then 1 else 0
  {
    var prev := SeedToggles(ids, k - 1);
    SeedTogglesState(ids, k - 1);
    SeedTogglesState(ids, k);
    IndexOfAt(prev, IdOfWorkout, ids[0], 0);
    IndexOfAt(prev[0].exercises, IdOfExercise, ids[k], k - 1);
    var next := ToggleAt(prev[0], k - 1);
    assert next == SeedToggles(ids, k)[0];
    assert CompletesWorkout(prev, ids[0], ids[k]) == AllCompleted(next.exercises);
    if k < 5 {
      assert !next.exercises[4].isCompleted;
    }
    ToggleStreak(prev, 0, ids[0], ids[k]);
  }

  /**
   * From the seed with a zero streak, toggling the five exercises of the first
   * workout in order keeps the streak at zero for the first four toggles and
   * raises it to one on the fifth, which completes the workout.
   */
  lemma SeedScenario(ids: seq<Id>)
    requires |ids| == SeedIdCount
    requires forall p, q :: 1 <= p < q <= 5 ==> ids[p] != ids[q]
    ensures forall k :: 1 <= k < 5 ==> ToggledStreak(SeedToggles(ids, k - 1), 0, ids[0], ids[k]) == 0
    ensures ToggledStreak(SeedToggles(ids, 4), 0, ids[0], ids[5]) == 1
    ensures SeedToggles(ids, 5)[0].isCompleted
  {
    forall k | 1 <= k <= 5
      ensures ToggledStreak(SeedToggles(ids, k - 1), 0, ids[0], ids[k]) == if k == 5 then 1 else 0
    {
      SeedToggleStep(ids, k);
    }
    SeedTogglesState(ids, 5);
  }

  // ---------------------------------------------------------------------------
  // The manager
  // ---------------------------------------------------------------------------

  /**
   * The observable manager. `stored` is what the key-value store holds under
   * the workout key (None when absent or undecodable); encoding and decoding
   * are taken to be inverse, so a save stores the list itself.
   */
  class WorkoutManager {
    var workouts: seq<Workout>
    var currentStreak: int
    ghost var stored: Option<seq<Workout>>

    /** The store always mirrors the list, and the streak is never negative. */
    ghost predicate Valid()
      reads this
    {
      stored == Some(workouts) && currentStreak >= 0
    }

    /**
     * Load what the store holds; when that yields an empty list, seed the
     * three default workouts and save them.
     */
    constructor (persisted: Option<seq<Workout>>, ids: seq<Id>)
      requires |ids| == SeedIdCount
      ensures Valid()
      ensures workouts == if persisted.Some? && persisted.value != [] then persisted.value
                          else DefaultWorkouts(ids)
      ensures currentStreak == 0
    {
      workouts := [];
      currentStreak := 0;
      stored := persisted;
      new;
      LoadWorkouts(persisted);
      if workouts == [] {
        SetupDefaultWorkouts(ids);
      }
    }

    /**
     * Replace the list by the decoded store content, if there is any; the
     * store then mirrors the list again.
     */
    method LoadWorkouts(decoded: Option<seq<Workout>>)
      requires stored == decoded
      modifies this`workouts
      ensures workouts == if decoded.Some? then decoded.value else old(workouts)
      ensures decoded.Some? ==> stored == Some(workouts)
    {
      if decoded.Some? {
        workouts := decoded.value;
      }
    }

    /** Write the list to the store. */
    method SaveWorkouts()
      modifies this`stored
      ensures stored == Some(workouts)
    {
      stored := Some(workouts);
    }

    /** One more if any workout is completed, otherwise back to zero. */
    method UpdateStreak()
      modifies this`currentStreak
      ensures currentStreak == StreakUpdate(workouts, old(currentStreak))
      ensures old(currentStreak) >= 0 ==> currentStreak >= 0
    {
      if AnyCompleted(workouts) {
        currentStreak := currentStreak + 1;
      } else {
        currentStreak := 0;
      }
    }

    /**
     * Flip the completion flag of the first matching exercise of the first
     * matching workout, recompute that workout's flag, update the streak when
     * the workout is now complete, and save; a miss changes nothing.
     */
    method ToggleExerciseCompletion(workoutId: Id, exerciseId: Id)
      requires Valid()
      modifies this
      ensures Valid()
      ensures workouts == Toggled(old(workouts), workoutId, exerciseId)
      ensures currentStreak == ToggledStreak(old(workouts), old(currentStreak), workoutId, exerciseId)
      ensures Locate(old(workouts), workoutId, exerciseId).None? ==> unchanged(this)
    {
      var wi := FindFirst(workouts, IdOfWorkout, workoutId);
      if wi.Some? {
        var ei := FindFirst(workouts[wi.value].exercises, IdOfExercise, exerciseId);
        if ei.Some? {
          var w, k := workouts[wi.value], ei.value;
          workouts := workouts[wi.value := w.(exercises := w.exercises[k := w.exercises[k].(isCompleted := !w.exercises[k].isCompleted)])];
          var allExercisesCompleted := AllCompleted(workouts[wi.value].exercises);
          workouts := workouts[wi.value := workouts[wi.value].(isCompleted := allExercisesCompleted)];
          if allExercisesCompleted {
            UpdateStreak();
          }
          SaveWorkouts();
        }
      }
    }

    /** Clear every exercise of the first matching workout and the workout itself, then save. */
    method ResetWorkout(workoutId: Id)
      requires Valid()
      modifies this
      ensures Valid()
      ensures workouts == ResetAt(old(workouts), workoutId)
      ensures currentStreak == old(currentStreak)
      ensures WorkoutIndex(old(workouts), workoutId).None? ==> unchanged(this)
    {
      var found := FindFirst(workouts, IdOfWorkout, workoutId);
      if found.Some? {
        var wi := found.value;
        ghost var w := workouts[wi];
        var n := |workouts[wi].exercises|;
        for i := 0 to n
          invariant currentStreak == old(currentStreak)
          invariant |workouts| == |old(workouts)|
          invariant forall j :: 0 <= j < |workouts| && j != wi ==> workouts[j] == old(workouts)[j]
          invariant workouts[wi].(exercises := w.exercises) == w
          invariant |workouts[wi].exercises| == n
          invariant forall k :: 0 <= k < n ==>
            workouts[wi].exercises[k] == if k < i then w.exercises[k].(isCompleted := false) else w.exercises[k]
        {
          workouts := workouts[wi := workouts[wi].(exercises := workouts[wi].exercises[i := workouts[wi].exercises[i].(isCompleted := false)])];
        }
        assert workouts[wi].exercises == Cleared(w.exercises);
        workouts := workouts[wi := workouts[wi].(isCompleted := false)];
        SaveWorkouts();
      }
    }

    /** Install the three default workouts and save them. */
    method SetupDefaultWorkouts(ids: seq<Id>)
      requires |ids| == SeedIdCount
      modifies this`workouts, this`stored
      ensures workouts == DefaultWorkouts(ids)
      ensures stored == Some(workouts)
    {
      workouts := DefaultWorkouts(ids);
      SaveWorkouts();
    }
  }
}
