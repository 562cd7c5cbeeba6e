/**
 The dashboard: exercise suggestions for the user's level, the water
 counter and the AI diet plan. The plan is produced by an external service;
 its outcome (a plan, or a failure) is an input here.
 */
module Dashboard {
  import opened Types
  import opened Seqs
  import opened Storage
  import opened StorageLaws

  /** The level suggestions are filtered on: the profile's, or Beginner
      for a user without a profile. */
  function SuggestionLevel(user: User): Level {
    match user.profile
    case Some(p) => p.level
    case None => Beginner
  }

  /** The exercises of one level, in the order given. */
  function ExercisesAtLevel(es: seq<Exercise>, lvl: Level): (r: seq<Exercise>)
    ensures forall k :: 0 <= k < |r| ==> r[k].level == lvl
    ensures forall e :: multiset(r)[e] == (if e.level == lvl then multiset(es)[e] else 0)
  {
    Filter(es, (e: Exercise) => e.level == lvl)
  }

  /** The stored exercises of the suggestion level, in library order. */
  function SuggestedExercises(st: Store, user: User): (r: seq<Exercise>)
    ensures forall k :: 0 <= k < |r| ==> r[k].level == SuggestionLevel(user)
    ensures forall e ::
      multiset(r)[e] == (if e.level == SuggestionLevel(user) then multiset(GetExercises(st))[e] else 0)
  {
    ExercisesAtLevel(GetExercises(st), SuggestionLevel(user))
  }

  /** A newly added exercise is suggested, at the end of the list, exactly
      to users of its level. */
  lemma SuggestionsAfterAddExercise(st: Store, user: User, e: Exercise)
    ensures SuggestedExercises(AddExercise(st, e), user) ==
      SuggestedExercises(st, user) + (if e.level == SuggestionLevel(user) then [e] else [])
  {
    var lvl := SuggestionLevel(user);
    var keep := (x: Exercise) => x.level == lvl;
    assert GetExercises(AddExercise(st, e)) == GetExercises(st) + [e];
    assert SuggestedExercises(AddExercise(st, e), user) == Filter(GetExercises(st) + [e], keep);
    FilterAppend(GetExercises(st), [e], keep);
    assert Filter([e], keep) == if keep(e) then [e] else [];
  }

  /** One more glass: the user is saved with the counter raised by one and
      every other field as it was. */
  function AddWater(st: Store, user: User): (r: (Store, User))
    ensures r.1.waterIntake == user.waterIntake + 1
    ensures r.1.(waterIntake := user.waterIntake) == user
    ensures r.0 == SaveUser(st, r.1)
  {
    var updated := user.(waterIntake := user.waterIntake + 1);
    (SaveUser(st, updated), updated)
  }

  /** `n` presses of the water button, each on the record the previous press
      handed back. */
  function AddWaterTimes(st: Store, user: User, n: nat): (Store, User)
    decreases n
  {
    if n == 0 then (st, user)
    else
      var prev := AddWaterTimes(st, user, n - 1);
      AddWater(prev.0, prev.1)
  }

  /** Pressing the button `n` times raises the counter by exactly `n` and
      changes nothing else on the record. */
  lemma {:induction false} AddWaterCounter(st: Store, user: User, n: nat)
    ensures AddWaterTimes(st, user, n).1 == user.(waterIntake := user.waterIntake + n)
  {
    if n > 0 {
      AddWaterCounter(st, user, n - 1);
    }
  }

  /** Pressing the button `n` times raises the counter by `n`, and the stored
      record under the user's id is the last one handed back. */
  lemma AddWaterRepeated(st: Store, user: User, n: nat)
    ensures AddWaterTimes(st, user, n).1 == user.(waterIntake := user.waterIntake + n)
    ensures n > 0 ==>
      var after := AddWaterTimes(st, user, n);
      var i := IndexOfId(after.0.users, user.id);
      0 <= i < |after.0.users| && after.0.users[i] == after.1
  {
    AddWaterCounter(st, user, n);
    if n > 0 {
      var prev := AddWaterTimes(st, user, n - 1);
      var next := prev.1.(waterIntake := prev.1.waterIntake + 1);
      assert AddWaterTimes(st, user, n) == (SaveUser(prev.0, next), next);
      SaveUserReadBack(prev.0, next);
    }
  }

  /** What the dashboard holds after a diet-plan request. */
  datatype DietState = DietState(store: Store, user: User, plan: Option<DietPlan>)

  /** Without a profile nothing happens. Otherwise a generated plan is shown
      and its two totals are saved onto the user; a failed generation saves
      nothing and leaves the previous plan on screen. */
  function GenerateDiet(st: Store, user: User, shown: Option<DietPlan>, outcome: Result<DietPlan>): (r: DietState)
    ensures user.profile.None? ==> r == DietState(st, user, shown)
    ensures outcome.Err? ==> r == DietState(st, user, shown)
    ensures user.profile.Some? && outcome.Ok? ==>
      && r.plan == Some(outcome.value)
      && r.user.dailyCalories == outcome.value.totalCalories
      && r.user.dailyProtein == outcome.value.totalProtein
      && r.user.(dailyCalories := user.dailyCalories, dailyProtein := user.dailyProtein) == user
      && r.store == SaveUser(st, r.user)
  {
    if user.profile.None? then DietState(st, user, shown)
    else
      match outcome
      case Ok(plan) =>
        var updated := user.(dailyCalories := plan.totalCalories, dailyProtein := plan.totalProtein);
        DietState(SaveUser(st, updated), updated, Some(plan))
      case Err(_) => DietState(st, user, shown)
  }

  /** Every dashboard write keeps the store coherent. */
  lemma DashboardWritesPreserveCoherence(st: Store, user: User, shown: Option<DietPlan>, outcome: Result<DietPlan>)
    requires Coherent(st)
    ensures Coherent(AddWater(st, user).0)
    ensures Coherent(GenerateDiet(st, user, shown, outcome).store)
  {
    SaveUserPreservesCoherence(st, user.(waterIntake := user.waterIntake + 1));
    if user.profile.Some? && outcome.Ok? {
      var p := outcome.value;
      SaveUserPreservesCoherence(st, user.(dailyCalories := p.totalCalories, dailyProtein := p.totalProtein));
    }
  }

  /** The diet handler saves the user it captured when the button was
      pressed: a glass of water added while the plan was being generated is
      lost, and the stored record carries the old counter again. */
  lemma DietSaveOverwritesConcurrentWater(st: Store, user: User, plan: DietPlan)
    requires user.profile.Some?
    ensures var r := GenerateDiet(AddWater(st, user).0, user, None, Ok(plan));
      var i := IndexOfId(r.store.users, user.id);
      0 <= i < |r.store.users| && r.store.users[i].waterIntake == user.waterIntake
  {
    var mid := AddWater(st, user).0;
    var updated := user.(dailyCalories := plan.totalCalories, dailyProtein := plan.totalProtein);
    SaveUserReadBack(mid, updated);
  }
}
