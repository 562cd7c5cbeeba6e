/**
 The local data-access layer: five browser storage slots and the operations
 over them. Every write reads the whole collection, changes it and writes it
 back, so each operation is a function from one store value to the next.
 JSON encoding is the identity here: a slot holds the typed value itself.
 */
module Storage {
  import opened Types
  import opened Constants

  /** The administrator password hard-wired next to ADMIN_EMAIL. */
  const ADMIN_PASSWORD: string := "admin123"

  /** One field per storage slot. An absent `users` slot reads as the empty
      sequence, so it is one; the other three collections remember whether
      they were ever written, because an unwritten one reads as its seed.
      `loadTime` is the clock reading the seed post timestamps derive from;
      no operation changes it. */
  datatype Store = Store(
    users: seq<User>,
    currentUser: Option<User>,
    posts: Option<seq<Post>>,
    exercises: Option<seq<Exercise>>,
    messages: Option<seq<ChatMessage>>,
    loadTime: int
  )

  /** A browser profile in which nothing has been stored yet. */
  function Fresh(loadTime: int): Store {
    Store([], None, None, None, None, loadTime)
  }

  // ---------------------------------------------------------------- users

  predicate HasId(users: seq<User>, id: string) {
    exists k :: 0 <= k < |users| && users[k].id == id
  }

  /** `i` is the first position of a user with this id. */
  predicate IsFirstWithId(users: seq<User>, id: string, i: int) {
    && 0 <= i < |users|
    && users[i].id == id
    && forall k :: 0 <= k < i ==> users[k].id != id
  }

  predicate UniqueIds(users: seq<User>) {
    forall a, b :: 0 <= a < b < |users| ==> users[a].id != users[b].id
  }

  /** The position of the first user carrying `id`, or -1 when none does. */
  function IndexOfId(users: seq<User>, id: string): (i: int)
    ensures -1 <= i < |users|
    ensures i == -1 <==> !HasId(users, id)
    ensures i != -1 ==> IsFirstWithId(users, id, i)
  {
    if |users| == 0 then -1
    else if users[0].id == id then 0
    else
      var j := IndexOfId(users[1..], id);
      assert forall k :: 0 < k < |users| ==> users[k] == users[1..][k - 1];
      if j == -1 then -1 else j + 1
  }

  /** The stored users; a slot never written reads as no users, which the
      model keeps as the empty sequence. */
  function GetUsers(st: Store): (r: seq<User>)
    ensures r == st.users
  {
    st.users
  }

  /** Upsert by id, then keep the session in step with the saved record. */
  function SaveUser(st: Store, u: User): (r: Store)
    ensures HasId(st.users, u.id) ==>
      exists i :: IsFirstWithId(st.users, u.id, i) && r.users == st.users[i := u]
    ensures !HasId(st.users, u.id) ==> r.users == st.users + [u]
    ensures st.currentUser.Some? && st.currentUser.value.id == u.id ==> r.currentUser == Some(u)
    ensures !(st.currentUser.Some? && st.currentUser.value.id == u.id) ==>
      r.currentUser == st.currentUser
    ensures r.posts == st.posts && r.exercises == st.exercises
    ensures r.messages == st.messages && r.loadTime == st.loadTime
  {
    var i := IndexOfId(st.users, u.id);
    var users := if i >= 0 then st.users[i := u] else st.users + [u];
    var session :=
      match st.currentUser
      case Some(c) => if c.id == u.id then Some(u) else st.currentUser
      case None => None;
    st.(users := users, currentUser := session)
  }

  // --------------------------------------------------------------- session

  /** The record the admin backdoor fabricates: never looked up in `users`. */
  function AdminUser(email: string): (a: User)
    ensures a.id == "admin" && a.role == ADMIN && a.email == email
    ensures a.password == None && a.profile == None
    ensures a.waterIntake == 0 && a.dailyCalories == 0 && a.dailyProtein == 0
  {
    User("admin", "Admin Koushik", email, None, ADMIN, None, 0, 0, 0)
  }

  /** Exact, case-sensitive comparison; a user without a password never matches. */
  predicate CredentialsMatch(u: User, email: string, password: string) {
    u.email == email && u.password == Some(password)
  }

  predicate IsFirstMatch(users: seq<User>, email: string, password: string, i: int) {
    && 0 <= i < |users|
    && CredentialsMatch(users[i], email, password)
    && forall k :: 0 <= k < i ==> !CredentialsMatch(users[k], email, password)
  }

  /** The first user whose e-mail and password both equal the given ones. */
  function FindByCredentials(users: seq<User>, email: string, password: string): (r: Option<User>)
    ensures r.None? <==> forall k :: 0 <= k < |users| ==> !CredentialsMatch(users[k], email, password)
    ensures r.Some? ==> exists i :: IsFirstMatch(users, email, password, i) && r.value == users[i]
  {
    if |users| == 0 then None
    else if CredentialsMatch(users[0], email, password) then
      assert IsFirstMatch(users, email, password, 0);
      Some(users[0])
    else
      var r := FindByCredentials(users[1..], email, password);
      assert forall k :: 0 < k < |users| ==> users[k] == users[1..][k - 1];
      if r.Some? then
        var i :| IsFirstMatch(users[1..], email, password, i) && r.value == users[1..][i];
        assert IsFirstMatch(users, email, password, i + 1);
        r
      else r
  }

  predicate IsAdminCredentials(email: string, password: string) {
    email == ADMIN_EMAIL && password == ADMIN_PASSWORD
  }

  /** Admin backdoor first, then the first stored user with matching
      credentials; on success the session is set to the returned user. */
  function Login(st: Store, email: string, password: string): (r: (Store, Option<User>))
    ensures IsAdminCredentials(email, password) ==>
      r.1 == Some(AdminUser(ADMIN_EMAIL)) && r.0 == st.(currentUser := r.1)
    ensures !IsAdminCredentials(email, password) && r.1.Some? ==>
      r.0 == st.(currentUser := r.1) &&
      exists i :: IsFirstMatch(st.users, email, password, i) && r.1.value == st.users[i]
    ensures !IsAdminCredentials(email, password) && r.1.None? ==>
      r.0 == st && forall k :: 0 <= k < |st.users| ==> !CredentialsMatch(st.users[k], email, password)
  {
    if IsAdminCredentials(email, password) then
      var admin := AdminUser(email);
      (st.(currentUser := Some(admin)), Some(admin))
    else
      match FindByCredentials(st.users, email, password)
      case Some(u) => (st.(currentUser := Some(u)), Some(u))
      case None => (st, None)
  }

  /** Removes the session and nothing else. */
  function Logout(st: Store): (r: Store)
    ensures GetCurrentUser(r) == None
    ensures r.(currentUser := st.currentUser) == st
  {
    st.(currentUser := None)
  }

  /** The session user, or none while the slot is absent. */
  function GetCurrentUser(st: Store): (r: Option<User>)
    ensures st.currentUser.None? ==> r == None
    ensures st.currentUser.Some? ==> r == Some(st.currentUser.value)
  {
    st.currentUser
  }

  // ---------------------------------------------------------------- posts

  /** The stored posts, or the seed posts while the slot was never written. */
  function GetPosts(st: Store): (r: seq<Post>)
    ensures st.posts.None? ==> r == MockPosts(st.loadTime)
    ensures st.posts.Some? ==> r == st.posts.value
  {
    match st.posts
    case Some(ps) => ps
    case None => MockPosts(st.loadTime)
  }

  /** Newest first: the post goes in front of what `GetPosts` reads. */
  function AddPost(st: Store, p: Post): (r: Store)
    ensures GetPosts(r) == [p] + GetPosts(st)
    ensures r.(posts := st.posts) == st
  {
    st.(posts := Some([p] + GetPosts(st)))
  }

  // ------------------------------------------------------------ exercises

  /** The stored library, or the three default exercises while the slot was
      never written. */
  function GetExercises(st: Store): (r: seq<Exercise>)
    ensures st.exercises.None? ==> r == DEFAULT_EXERCISES
    ensures st.exercises.Some? ==> r == st.exercises.value
  {
    match st.exercises
    case Some(es) => es
    case None => DEFAULT_EXERCISES
  }

  /** Oldest first: the exercise goes after what `GetExercises` reads. */
  function AddExercise(st: Store, e: Exercise): (r: Store)
    ensures GetExercises(r) == GetExercises(st) + [e]
    ensures r.(exercises := st.exercises) == st
  {
    st.(exercises := Some(GetExercises(st) + [e]))
  }

  // ------------------------------------------------------------- messages

  /** The stored messages, or none while the slot was never written. */
  function GetMessages(st: Store): (r: seq<ChatMessage>)
    ensures st.messages.None? ==> r == []
    ensures st.messages.Some? ==> r == st.messages.value
  {
    match st.messages
    case Some(ms) => ms
    case None => []
  }

  /** Appends; the slot reads as empty until the first message. */
  function SendMessage(st: Store, m: ChatMessage): (r: Store)
    ensures GetMessages(r) == GetMessages(st) + [m]
    ensures r.(messages := st.messages) == st
  {
    st.(messages := Some(GetMessages(st) + [m]))
  }
}
