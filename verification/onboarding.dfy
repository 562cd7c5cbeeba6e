/**
 The four-step onboarding wizard that gives a new user a profile. The
 wizard holds the current step, the profile being edited and the text of
 the allergy input; completing it saves the user with that profile.
 */
module Onboarding {
  import opened Types
  import opened Text
  import opened Seqs
  import opened Storage
  import opened StorageLaws

  datatype Wizard = Wizard(step: int, profile: UserProfile, allergyInput: string)

  /** The profile the wizard starts from. */
  const INITIAL_PROFILE: UserProfile :=
    UserProfile(25, Male, 170, 70, [], Standard, Beginner, Maintenance, None)

  function Start(): (w: Wizard)
    ensures w.step == 1 && w.allergyInput == ""
    ensures w.profile.age == 25 && w.profile.gender == Male
    ensures w.profile.height == 170 && w.profile.weight == 70
    ensures w.profile.allergies == [] && w.profile.dietPreference == Standard
    ensures w.profile.level == Beginner && w.profile.goal == Maintenance
    ensures w.profile.location == None
  {
    Wizard(1, INITIAL_PROFILE, "")
  }

  /** Moves one step forward; no bound is checked here (the wizard only
      offers the button on steps 1 to 3). */
  function HandleNext(w: Wizard): (r: Wizard)
    ensures r.step == w.step + 1
    ensures r.(step := w.step) == w
  {
    w.(step := w.step + 1)
  }

  /** Moves one step back; offered on steps 2 to 4. */
  function HandleBack(w: Wizard): (r: Wizard)
    ensures r.step == w.step - 1
    ensures r.(step := w.step) == w
  {
    w.(step := w.step - 1)
  }

  /** Back undoes next and next undoes back: the wizard keeps everything
      typed while the user moves between steps. */
  lemma BackUndoesNext(w: Wizard)
    ensures HandleBack(HandleNext(w)) == w
    ensures HandleNext(HandleBack(w)) == w
  {
  }

  /** Saves the user with the wizard's profile and hands the saved record to
      the application. */
  function HandleComplete(st: Store, user: User, w: Wizard): (r: (Store, User))
    ensures r.1.profile == Some(w.profile)
    ensures r.1.(profile := user.profile) == user
    ensures r.0 == SaveUser(st, r.1)
  {
    var updated := user.(profile := Some(w.profile));
    (SaveUser(st, updated), updated)
  }

  /** Adds the trimmed input after the existing allergies and clears the
      input; input that is blank after trimming is ignored. */
  function AddAllergy(w: Wizard): (r: Wizard)
    ensures IsBlank(w.allergyInput) ==> r == w
    ensures !IsBlank(w.allergyInput) ==>
      && r.profile.allergies == w.profile.allergies + [Trim(w.allergyInput)]
      && Trim(w.allergyInput) != ""
      && r.allergyInput == ""
      && r.profile.(allergies := w.profile.allergies) == w.profile
      && r.step == w.step
  {
    TrimEmptyIffBlank(w.allergyInput);
    var entry := Trim(w.allergyInput);
    if entry != "" then
      w.(profile := w.profile.(allergies := w.profile.allergies + [entry]), allergyInput := "")
    else w
  }

  /** The remove button next to allergy `a`: every entry equal to `a` goes. */
  function RemoveAllergy(w: Wizard, a: string): (r: Wizard)
    ensures forall k :: 0 <= k < |r.profile.allergies| ==> r.profile.allergies[k] != a
    ensures forall x :: x != a ==> multiset(r.profile.allergies)[x] == multiset(w.profile.allergies)[x]
    ensures r.profile.(allergies := w.profile.allergies) == w.profile
    ensures r.(profile := w.profile) == w
  {
    w.(profile := w.profile.(allergies := Filter(w.profile.allergies, x => x != a)))
  }

  /** Removal keeps the remaining allergies in order: removing from a list
      with one entry appended is removing from the list, followed by that
      entry unless it is the one removed. */
  lemma RemoveAllergyKeepsOrder(w: Wizard, extra: string, a: string)
    ensures RemoveAllergy(w.(profile := w.profile.(allergies := w.profile.allergies + [extra])), a)
              .profile.allergies
         == RemoveAllergy(w, a).profile.allergies + (if extra == a then [] else [extra])
  {
    FilterAppend(w.profile.allergies, [extra], x => x != a);
  }

  /** Adding an allergy and then removing it restores the list, provided it
      was not listed before. */
  lemma AddThenRemoveAllergy(w: Wizard)
    requires !IsBlank(w.allergyInput)
    requires Trim(w.allergyInput) !in w.profile.allergies
    ensures RemoveAllergy(AddAllergy(w), Trim(w.allergyInput)).profile.allergies == w.profile.allergies
  {
    var a := Trim(w.allergyInput);
    RemoveAllergyKeepsOrder(w, a, a);
    FilterAll(w.profile.allergies, x => x != a);
  }

  /** Completing onboarding keeps the store coherent, and the saved record is
      what reads back under the user's id. */
  lemma CompletionIsStored(st: Store, user: User, w: Wizard)
    requires Coherent(st)
    ensures var (st', u) := HandleComplete(st, user, w);
      && Coherent(st')
      && IndexOfId(st'.users, user.id) >= 0
      && st'.users[IndexOfId(st'.users, user.id)] == u
  {
    var updated := user.(profile := Some(w.profile));
    SaveUserPreservesCoherence(st, updated);
    SaveUserReadBack(st, updated);
  }
}
