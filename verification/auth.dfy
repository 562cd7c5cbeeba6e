/**
 The sign-in / sign-up form. Submitting in login mode asks the storage layer
 to log in; submitting in registration mode builds a fresh USER record,
 saves it, logs in with the same credentials and hands the NEW record to the
 application, whatever the login itself picked as the session.
 The id of a new record (a clock reading in the application) is an input.
 */
module Auth {
  import opened Types
  import opened Text
  import opened Storage
  import opened StorageLaws

  const INVALID_CREDENTIALS: string := "Invalid email or password"
  const MISSING_FIELDS: string := "All fields are required"

  /** The form's state: which mode it is in, the three inputs and the error line. */
  datatype Form = Form(isLogin: bool, email: string, password: string, name: string, error: string)

  /** What a submit leaves behind: the store, the form, and the user handed
      to the application's `onLogin`, if any. */
  datatype Submitted = Submitted(store: Store, form: Form, onLogin: Option<User>)

  /** The record registration creates: an ordinary user, not yet onboarded,
      with every counter at zero. */
  function NewUser(id: string, name: string, email: string, password: string): (u: User)
    ensures u.id == id && u.name == name && u.email == email
    ensures u.password == Some(password) && u.role == USER && u.profile == None
    ensures u.waterIntake == 0 && u.dailyCalories == 0 && u.dailyProtein == 0
  {
    User(id, name, email, Some(password), USER, None, 0, 0, 0)
  }

  function HandleSubmit(st: Store, f: Form, newId: string): (r: Submitted)
    // only the error line of the form changes
    ensures r.form == f.(error := r.form.error)
    // login mode: exactly what `login` returned reaches the application
    ensures f.isLogin ==>
      && r.store == Login(st, f.email, f.password).0
      && r.onLogin == Login(st, f.email, f.password).1
      && r.form.error == (if r.onLogin.None? then INVALID_CREDENTIALS else "")
    // registration with a blank field: an error, and the store is untouched
    ensures !f.isLogin && (f.name == "" || f.email == "" || f.password == "") ==>
      r.store == st && r.onLogin == None && r.form.error == MISSING_FIELDS
    // registration: save, auto-login, and hand over the new record
    ensures !f.isLogin && f.name != "" && f.email != "" && f.password != "" ==>
      var u := NewUser(newId, f.name, f.email, f.password);
      && r.store == Login(SaveUser(st, u), f.email, f.password).0
      && r.onLogin == Some(u)
      && r.form.error == ""
  {
    var cleared := f.(error := "");
    if f.isLogin then
      var (st', user) := Login(st, f.email, f.password);
      if user.Some? then Submitted(st', cleared, user)
      else Submitted(st', cleared.(error := INVALID_CREDENTIALS), None)
    else if !Truthy(f.name) || !Truthy(f.email) || !Truthy(f.password) then
      Submitted(st, cleared.(error := MISSING_FIELDS), None)
    else
      var u := NewUser(newId, f.name, f.email, f.password);
      var saved := SaveUser(st, u);
      var (st', _) := Login(saved, f.email, f.password);
      Submitted(st', cleared, Some(u))
  }

  predicate CanRegister(f: Form) {
    !f.isLogin && f.name != "" && f.email != "" && f.password != ""
  }

  /** With a fresh id the new record lands at the end of the collection;
      no check of the e-mail address against existing users is made. */
  lemma RegistrationAppends(st: Store, f: Form, newId: string)
    requires CanRegister(f) && !HasId(st.users, newId)
    ensures HandleSubmit(st, f, newId).store.users ==
      st.users + [NewUser(newId, f.name, f.email, f.password)]
  {
  }

  /** The first-match search over a collection with one record appended
      finds an earlier match if there is one, and the appended record
      otherwise. */
  lemma {:induction false} FindAfterAppend(users: seq<User>, u: User, email: string, password: string)
    ensures FindByCredentials(users + [u], email, password) ==
      match FindByCredentials(users, email, password)
      case Some(v) => Some(v)
      case None => if CredentialsMatch(u, email, password) then Some(u) else None
  {
    if |users| > 0 {
      assert (users + [u])[1..] == users[1..] + [u];
      FindAfterAppend(users[1..], u, email, password);
    }
  }

  /** Which session registration leaves: the admin record for the admin
      credentials, an EARLIER user with the same e-mail and password if one
      exists, and the new record only otherwise. The application is handed
      the new record in every case. */
  lemma RegistrationSession(st: Store, f: Form, newId: string)
    requires CanRegister(f) && !HasId(st.users, newId)
    ensures var r := HandleSubmit(st, f, newId);
      var u := NewUser(newId, f.name, f.email, f.password);
      && r.onLogin == Some(u)
      && (IsAdminCredentials(f.email, f.password) ==>
            r.store.currentUser == Some(AdminUser(f.email)))
      && (!IsAdminCredentials(f.email, f.password) ==>
            r.store.currentUser ==
              match FindByCredentials(st.users, f.email, f.password)
              case Some(v) => Some(v)
              case None => Some(u))
  {
    var u := NewUser(newId, f.name, f.email, f.password);
    FindAfterAppend(st.users, u, f.email, f.password);
  }

  /** Registering when an earlier account has the same credentials: the
      session becomes that earlier account while the application is handed
      the new one, so the two disagree. */
  lemma RegistrationCanSplitSession(st: Store, f: Form, newId: string, earlier: User)
    requires CanRegister(f) && !HasId(st.users, newId)
    requires !IsAdminCredentials(f.email, f.password)
    requires earlier in st.users && CredentialsMatch(earlier, f.email, f.password)
    ensures var r := HandleSubmit(st, f, newId);
      && r.store.currentUser.Some?
      && r.store.currentUser.value.id != newId
      && r.onLogin == Some(NewUser(newId, f.name, f.email, f.password))
  {
    RegistrationSession(st, f, newId);
    var v := FindByCredentials(st.users, f.email, f.password);
    assert v.Some?;
    var i :| IsFirstMatch(st.users, f.email, f.password, i) && v.value == st.users[i];
    assert !HasId(st.users, newId);
  }

  /** Registration keeps the store coherent, unless it goes through the admin
      backdoor after an "admin" record has been stored. */
  lemma RegistrationPreservesCoherence(st: Store, f: Form, newId: string)
    requires Coherent(st)
    requires IsAdminCredentials(f.email, f.password) ==> !HasId(st.users, "admin") && newId != "admin"
    ensures Coherent(HandleSubmit(st, f, newId).store)
  {
    if f.isLogin {
      LoginPreservesCoherence(st, f.email, f.password);
    } else if CanRegister(f) {
      var u := NewUser(newId, f.name, f.email, f.password);
      var saved := SaveUser(st, u);
      SaveUserPreservesCoherence(st, u);
      LoginPreservesCoherence(saved, f.email, f.password);
    }
  }
}
