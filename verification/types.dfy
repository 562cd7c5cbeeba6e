/**
 The entities of the fitness application: users with their onboarding
 profile, exercise library entries, community posts with comments, chat
 messages and the AI diet plan. Every field the application stores is kept;
 optional fields are `Option`s and JavaScript numbers are `int`s.
 */
module Types {

  /** An optional value: a field that may be absent, or a missing record. */
  datatype Option<T> = None | Some(value: T)

  /** The outcome of a call that can fail (an AI request, say). */
  datatype Result<T> = Ok(value: T) | Err(message: string)

  datatype UserRole = USER | ADMIN

  datatype Goal = MuscleGain | FatLoss | Maintenance | Endurance

  datatype Level = Beginner | Intermediate | Advanced

  datatype DietPreference = NorthIndian | SouthIndian | Vegan | Keto | Paleo | Standard

  datatype Gender = Male | Female | Other

  datatype Category = Strength | Cardio | Flexibility

  /** Created once by onboarding and replaced wholesale afterwards. */
  datatype UserProfile = UserProfile(
    age: int,
    gender: Gender,
    height: int,             // centimetres
    weight: int,             // kilograms
    allergies: seq<string>,
    dietPreference: DietPreference,
    level: Level,
    goal: Goal,
    location: Option<string>
  )

  /** Passwords are stored in plaintext; the fabricated admin record has none. */
  datatype User = User(
    id: string,
    name: string,
    email: string,
    password: Option<string>,
    role: UserRole,
    profile: Option<UserProfile>,
    waterIntake: int,        // glasses today
    dailyCalories: int,
    dailyProtein: int
  )

  datatype Exercise = Exercise(
    id: string,
    name: string,
    description: string,
    videoUrl: string,
    level: Level,
    category: Category
  )

  datatype Comment = Comment(
    id: string,
    userId: string,
    userName: string,
    content: string,
    timestamp: int
  )

  /** The author is referenced by id, with a copy of their name. */
  datatype Post = Post(
    id: string,
    userId: string,
    userName: string,
    community: string,
    title: string,
    content: string,
    imageUrl: Option<string>,
    upvotes: int,
    timestamp: int,
    comments: seq<Comment>
  )

  datatype ChatMessage = ChatMessage(
    id: string,
    senderId: string,
    receiverId: string,
    content: string,
    timestamp: int
  )

  datatype DietMeal = DietMeal(
    name: string,
    description: string,
    calories: int,
    protein: int,
    ingredients: seq<string>
  )

  /** Never stored as such: only its two totals are copied onto the user. */
  datatype DietPlan = DietPlan(
    breakfast: DietMeal,
    lunch: DietMeal,
    snack: DietMeal,
    dinner: DietMeal,
    totalCalories: int,
    totalProtein: int
  )
}
