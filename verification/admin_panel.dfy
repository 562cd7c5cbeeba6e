/**
 The administrator's exercise library: the list shown, the form for a new
 exercise, and the delete buttons. The form holds a partial exercise: its
 text fields may be missing, and level and category always have a value.
 The new exercise's id (a clock reading) is an input.
 */
module AdminPanel {
  import opened Types
  import opened Storage

  datatype Draft = Draft(
    name: Option<string>,
    description: Option<string>,
    videoUrl: Option<string>,
    level: Level,
    category: Category
  )

  datatype Panel = Panel(exercises: seq<Exercise>, draft: Draft)

  /** JavaScript truthiness of an optional string. */
  predicate Present(s: Option<string>) {
    s.Some? && s.value != ""
  }

  const EMPTY_DRAFT: Draft := Draft(Some(""), Some(""), Some(""), Beginner, Strength)

  /** The panel as it opens: whatever the store reads as its exercises,
      and an empty form set to Beginner / Strength. */
  function Open(st: Store): (p: Panel)
    ensures p.exercises == GetExercises(st)
    ensures !Present(p.draft.name) && !Present(p.draft.description) && !Present(p.draft.videoUrl)
    ensures p.draft.level == Beginner && p.draft.category == Strength
  {
    Panel(GetExercises(st), EMPTY_DRAFT)
  }

  /** The exercise built from a complete draft; a missing description is `''`. */
  function FromDraft(d: Draft, id: string): (e: Exercise)
    requires Present(d.name) && Present(d.videoUrl)
    ensures e.id == id && e.name == d.name.value && e.videoUrl == d.videoUrl.value
    ensures e.description == (if Present(d.description) then d.description.value else "")
    ensures e.level == d.level && e.category == d.category
  {
    Exercise(id, d.name.value,
      if Present(d.description) then d.description.value else "",
      d.videoUrl.value, d.level, d.category)
  }

  /** Adds the drafted exercise to the end of the store and of the list, then
      clears the text fields and keeps level and category. Without a name or
      a video URL nothing happens. */
  function HandleAdd(st: Store, p: Panel, id: string): (r: (Store, Panel))
    ensures !Present(p.draft.name) || !Present(p.draft.videoUrl) ==> r == (st, p)
    ensures Present(p.draft.name) && Present(p.draft.videoUrl) ==>
      var e := FromDraft(p.draft, id);
      && GetExercises(r.0) == GetExercises(st) + [e]
      && r.0.(exercises := st.exercises) == st
      && r.1.exercises == p.exercises + [e]
      && r.1.draft == p.draft.(name := Some(""), description := Some(""), videoUrl := Some(""))
  {
    if !Present(p.draft.name) || !Present(p.draft.videoUrl) then (st, p)
    else
      var e := FromDraft(p.draft, id);
      (AddExercise(st, e),
       Panel(p.exercises + [e], p.draft.(name := Some(""), description := Some(""), videoUrl := Some(""))))
  }

  /** A delete button: it has no click handler, so neither the store nor the
      list changes, whichever row it belongs to. */
  function DeleteClicked(st: Store, p: Panel, row: nat): (r: (Store, Panel))
    ensures r.0 == st
    ensures r.1 == p
  {
    (st, p)
  }

  /** The list keeps showing what the store holds: true when the panel opens,
      and kept by every add. */
  lemma ListMatchesStore(st: Store, p: Panel, id: string)
    requires p.exercises == GetExercises(st)
    ensures Open(st).exercises == GetExercises(st)
    ensures var (st', p') := HandleAdd(st, p, id); p'.exercises == GetExercises(st')
  {
  }
}
