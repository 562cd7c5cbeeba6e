/**
 Laws of the data-access layer that relate several calls: last write wins,
 id uniqueness and read-back after `SaveUser`, the session/collection
 coherence invariant and where the admin backdoor escapes it, and the
 seed-then-write behaviour of the three content collections.
 */
module StorageLaws {
  import opened Types
  import opened Constants
  import opened Storage

  /** Once a user with `id` sits at `i`, the index search finds exactly `i`. */
  lemma IndexOfIdIsFirst(users: seq<User>, id: string, i: int)
    requires IsFirstWithId(users, id, i)
    ensures IndexOfId(users, id) == i
  {
  }

  /** After `SaveUser(st, u)` the first record with `u.id` is `u` itself. */
  lemma SaveUserReadBack(st: Store, u: User)
    ensures var users := SaveUser(st, u).users;
      var i := IndexOfId(users, u.id);
      0 <= i < |users| && users[i] == u
  {
    var users := SaveUser(st, u).users;
    if HasId(st.users, u.id) {
      var i :| IsFirstWithId(st.users, u.id, i) && users == st.users[i := u];
      assert IsFirstWithId(users, u.id, i);
      IndexOfIdIsFirst(users, u.id, i);
    } else {
      assert IsFirstWithId(users, u.id, |st.users|);
      IndexOfIdIsFirst(users, u.id, |st.users|);
    }
  }

  /** Saving keeps ids unique, and afterwards every record with `u.id` is `u`:
      there is exactly one. */
  lemma SaveUserKeepsIdsUnique(st: Store, u: User)
    requires UniqueIds(st.users)
    ensures var users := SaveUser(st, u).users;
      && UniqueIds(users)
      && HasId(users, u.id)
      && forall k :: 0 <= k < |users| && users[k].id == u.id ==> users[k] == u
  {
    var users := SaveUser(st, u).users;
    if HasId(st.users, u.id) {
      var i :| IsFirstWithId(st.users, u.id, i) && users == st.users[i := u];
      assert users[i].id == u.id;
    } else {
      assert users[|st.users|] == u;
    }
  }

  /** Saving twice under one id leaves exactly what saving the second value
      alone leaves: the first write is lost without trace. */
  lemma SaveUserLastWriteWins(st: Store, u1: User, u2: User)
    requires u1.id == u2.id
    ensures SaveUser(SaveUser(st, u1), u2) == SaveUser(st, u2)
  {
    var mid := SaveUser(st, u1);
    if HasId(st.users, u1.id) {
      var i :| IsFirstWithId(st.users, u1.id, i) && mid.users == st.users[i := u1];
      IndexOfIdIsFirst(st.users, u1.id, i);
      assert IsFirstWithId(mid.users, u2.id, i);
      IndexOfIdIsFirst(mid.users, u2.id, i);
      assert mid.users[i := u2] == st.users[i := u2];
    } else {
      var n := |st.users|;
      assert IsFirstWithId(mid.users, u2.id, n);
      IndexOfIdIsFirst(mid.users, u2.id, n);
      assert mid.users[n := u2] == st.users + [u2];
    }
  }

  /** The session agrees with the collection: ids are unique and a stored
      record carrying the session's id is the session record itself. */
  ghost predicate Coherent(st: Store) {
    && UniqueIds(st.users)
    && (st.currentUser.Some? ==>
          forall k :: 0 <= k < |st.users| && st.users[k].id == st.currentUser.value.id ==>
            st.users[k] == st.currentUser.value)
  }

  lemma SaveUserPreservesCoherence(st: Store, u: User)
    requires Coherent(st)
    ensures Coherent(SaveUser(st, u))
  {
    var r := SaveUser(st, u);
    SaveUserKeepsIdsUnique(st, u);
    if r.currentUser.Some? && r.currentUser.value.id != u.id {
      var c := r.currentUser.value;
      forall k | 0 <= k < |r.users| && r.users[k].id == c.id
        ensures r.users[k] == c
      {
        if HasId(st.users, u.id) {
          var i :| IsFirstWithId(st.users, u.id, i) && r.users == st.users[i := u];
          assert k != i;
        } else {
          assert k < |st.users|;
        }
      }
    }
  }

  /** Logging in as a stored user keeps the store coherent; so does the admin
      backdoor as long as no record with id "admin" has been stored. */
  lemma LoginPreservesCoherence(st: Store, email: string, password: string)
    requires Coherent(st)
    requires IsAdminCredentials(email, password) ==> !HasId(st.users, "admin")
    ensures Coherent(Login(st, email, password).0)
  {
    var (r, res) := Login(st, email, password);
    if res.Some? && !IsAdminCredentials(email, password) {
      var i :| IsFirstMatch(st.users, email, password, i) && res.value == st.users[i];
      assert r.currentUser == Some(st.users[i]);
    }
  }

  /** The admin backdoor does not consult the collection: once the admin's
      record has been saved with a changed counter (the dashboard's water
      button does that), the next admin login puts a session in place that
      differs from the stored record with the same id. */
  lemma AdminLoginCanBreakCoherence()
    ensures var admin := AdminUser(ADMIN_EMAIL);
      var saved := admin.(waterIntake := 1);
      var st := Logout(SaveUser(Login(Fresh(0), ADMIN_EMAIL, ADMIN_PASSWORD).0, saved));
      && Coherent(st)
      && st.users == [saved]
      && Login(st, ADMIN_EMAIL, ADMIN_PASSWORD).0.currentUser == Some(admin)
      && !Coherent(Login(st, ADMIN_EMAIL, ADMIN_PASSWORD).0)
  {
    var admin := AdminUser(ADMIN_EMAIL);
    var saved := admin.(waterIntake := 1);
    var st0 := Login(Fresh(0), ADMIN_EMAIL, ADMIN_PASSWORD).0;
    assert !HasId(st0.users, saved.id);
    var st := Logout(SaveUser(st0, saved));
    assert st.users == [saved];
    var after := Login(st, ADMIN_EMAIL, ADMIN_PASSWORD).0;
    assert after.users[0].id == after.currentUser.value.id;
    assert after.users[0] != after.currentUser.value;
  }

  /** Logging out twice is logging out once. */
  lemma LogoutIdempotent(st: Store)
    ensures Logout(Logout(st)) == Logout(st)
  {
  }

  /** Until anything is written, the store reads as its defaults: no users,
      no session, the seed posts and exercises and no messages. */
  lemma FreshStoreReadsDefaults(t: int)
    ensures GetUsers(Fresh(t)) == []
    ensures GetCurrentUser(Fresh(t)) == None
    ensures GetPosts(Fresh(t)) == MockPosts(t)
    ensures GetExercises(Fresh(t)) == DEFAULT_EXERCISES
    ensures GetMessages(Fresh(t)) == []
  {
  }

  /** The first write to a seeded slot keeps the seed: one post on a fresh
      store reads back as `[p, seed0, seed1]`, one exercise as the three
      seed exercises followed by it. */
  lemma FirstWriteKeepsSeed(t: int, p: Post, e: Exercise)
    ensures GetPosts(AddPost(Fresh(t), p)) == [p, MockPosts(t)[0], MockPosts(t)[1]]
    ensures GetExercises(AddExercise(Fresh(t), e)) ==
      [DEFAULT_EXERCISES[0], DEFAULT_EXERCISES[1], DEFAULT_EXERCISES[2], e]
  {
  }
}
