/**
 Fixed data of the application: the administrator address, the community
 names, and the seed exercises and posts shown while the corresponding
 storage slot has never been written.
 */
module Constants {
  import opened Types

  const ADMIN_EMAIL: string := "koushikmreddy43@gmail.com"

  const COMMUNITIES: seq<string> := [
    "r/GeneralFitness",
    "r/MuscleGain",
    "r/WeightLoss",
    "r/Yoga",
    "r/Running",
    "r/HealthyEating"
  ]

  const DEFAULT_EXERCISES: seq<Exercise> := [
    Exercise("ex1", "Push Ups", "Standard push up for chest and triceps.",
      "https://www.youtube.com/embed/IODxDxX7oi4", Beginner, Strength),
    Exercise("ex2", "Squats", "Bodyweight squats for legs.",
      "https://www.youtube.com/embed/aclHkVaku9U", Beginner, Strength),
    Exercise("ex3", "Burpees", "Full body cardio.",
      "https://www.youtube.com/embed/dZgVxmf6jkA", Intermediate, Cardio)
  ]

  /** The text of the two seed posts. */
  const P1_TITLE: string := "Finally hit my bench press PR!"
  const P1_CONTENT: string := "After 6 months of consistent training, I finally pushed 100kg. Consistency is key guys!"
  const P2_TITLE: string := "Best running shoes for flat feet?"
  const P2_CONTENT: string := "I need advice. My arches hurt after 5k."

  /** The two seed posts. Their timestamps are computed from the clock when
      the constants are first evaluated (`loadTime`), which is an input here. */
  function MockPosts(loadTime: int): (r: seq<Post>)
    ensures |r| == 2
    ensures r[0].id == "p1" && r[1].id == "p2"
    ensures r[0].timestamp < r[1].timestamp < loadTime
    ensures forall k :: 0 <= k < |r| ==> r[k].comments == [] && r[k].imageUrl == None
  {
    [
      Post("p1", "u2", "GymRat99", "r/MuscleGain", P1_TITLE, P1_CONTENT, None, 245, loadTime - 10000000, []),
      Post("p2", "u3", "SarahRunner", "r/Running", P2_TITLE, P2_CONTENT, None, 42, loadTime - 5000000, [])
    ]
  }
}
