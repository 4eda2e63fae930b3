/**
 * The login screen (src/components/auth/LoginForm.tsx): credential lookup,
 * the administrator quick-fill and the reset button.
 */
module LoginForm {
  import opened Wrappers
  import opened Types
  import opened Lists
  import opened Storage

  datatype LoginResult = LoggedIn(user: User) | LoginError(message: string)

  const InvalidCredentials: string := "Invalid email or password"

  /** The credentials `handleAdminLogin` fills into the form. */
  const QuickFillEmail: string := "admin@mednetwork.com"
  const QuickFillPassword: string := "admin123"

  function HasCredentials(email: string, password: string): User -> bool
  {
    (u: User) => u.email == email && u.password == Some(password)
  }

  /** `users.find(u => u.email === email && u.password === password)`. */
  function FindCredentials(users: seq<User>, email: string, password: string): Option<User>
  {
    Find(users, HasCredentials(email, password))
  }

  /** A login succeeds iff some user has both the email and the password, and then it is the first such user. */
  lemma FindCredentialsIff(users: seq<User>, email: string, password: string)
    ensures FindCredentials(users, email, password).Some? <==>
              exists i :: 0 <= i < |users| && users[i].email == email && users[i].password == Some(password)
    ensures FindCredentials(users, email, password).Some? ==>
              exists i :: 0 <= i < |users| && users[i] == FindCredentials(users, email, password).value &&
                users[i].email == email && users[i].password == Some(password) &&
                forall j :: 0 <= j < i ==> !(users[j].email == email && users[j].password == Some(password))
  {
    var p := HasCredentials(email, password);
    assert forall u :: p(u) <==> u.email == email && u.password == Some(password);
  }

  /** `handleLogin`: the users are only read; on success the session holds the found user. */
  method Login(store: Store, email: string, password: string) returns (r: LoginResult)
    requires store.Valid()
    modifies store
    ensures store.Valid()
    ensures FindCredentials(old(store.State()).users, email, password).Some? ==>
              r == LoggedIn(FindCredentials(old(store.State()).users, email, password).value) &&
              store.State() == old(store.State()).(current := Some(r.user))
    ensures FindCredentials(old(store.State()).users, email, password).None? ==>
              r == LoginError(InvalidCredentials) && store.State() == old(store.State())
  {
    var users := store.Users();
    var user := FindCredentials(users, email, password);
    if user.Some? {
      store.SetCurrentUser(user);
      r := LoggedIn(user.value);
    } else {
      r := LoginError(InvalidCredentials);
    }
  }

  /** The quick-fill credentials are the seeded administrator's, so they log in after a reset. */
  lemma QuickFillLogsInAfterReset(now: int)
    ensures FindCredentials(AfterReset(now).users, QuickFillEmail, QuickFillPassword) == Some(SeedAdmin(now))
  {
    var p := HasCredentials(QuickFillEmail, QuickFillPassword);
    assert p([SeedAdmin(now)][0]);
  }

  /** They also log in after seeding an empty users collection, and always log in as an administrator once seeded. */
  lemma QuickFillLogsInAfterSeed(db: Db, now: int)
    requires |db.users| == 0
    ensures FindCredentials(Seeded(db, now).users, QuickFillEmail, QuickFillPassword) == Some(SeedAdmin(now))
    ensures SeedAdmin(now).role == AdminRole
  {
    var p := HasCredentials(QuickFillEmail, QuickFillPassword);
    assert p([SeedAdmin(now)][0]);
  }

  /** The reset button. */
  method ResetDemoData(store: Store, now: int)
    modifies store
    ensures store.Valid() && store.State() == AfterReset(now)
  {
    store.Reset(now);
  }
}
