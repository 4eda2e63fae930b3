/**
 * Patient self-registration (src/components/auth/PatientSignup.tsx): reject a
 * taken email, otherwise append a patient user and a Patient record sharing
 * its id. `age` is what `parseInt` made of the age field (`None` for NaN).
 */
module PatientSignup {
  import opened Wrappers
  import opened Types
  import opened Lists
  import opened Storage
  import opened Lookups

  datatype SignupForm = SignupForm(name: string, email: string, phone: string, password: string, age: Option<int>)

  datatype SignupResult = SignedUp(user: User) | SignupError(message: string)

  const EmailTaken: string := "A user with this email already exists"

  /** `parseInt(age) || undefined`: NaN and 0 both become absent. */
  function AgeOf(parsed: Option<int>): Option<int>
  {
    if parsed.None? || parsed.value == 0 then None else parsed
  }

  function NewUser(form: SignupForm, stamp: string, now: int): User
  {
    User(stamp, form.email, Some(form.phone), form.name, PatientRole, None, Some(form.password), None, now)
  }

  function NewPatient(form: SignupForm, stamp: string, now: int): Patient
  {
    Patient(stamp, form.name, form.email, form.phone, AgeOf(form.age), None, None, None, now)
  }

  /** The store after a signup attempt. */
  function Signup(db: Db, form: SignupForm, stamp: string, now: int): Db
  {
    if Find(db.users, UserWithEmail(form.email)).Some? then db
    else db.(users := db.users + [NewUser(form, stamp, now)], patients := db.patients + [NewPatient(form, stamp, now)])
  }

  /** `handleSignup`. */
  method HandleSignup(store: Store, form: SignupForm, stamp: string, now: int) returns (r: SignupResult)
    requires store.Valid()
    modifies store
    ensures store.Valid()
    ensures store.State() == Signup(old(store.State()), form, stamp, now)
    ensures Find(old(store.State()).users, UserWithEmail(form.email)).Some? <==> r == SignupError(EmailTaken)
    ensures r.SignedUp? ==> r.user == NewUser(form, stamp, now)
  {
    var existingUsers := store.Users();
    var userExists := Find(existingUsers, UserWithEmail(form.email));
    if userExists.Some? {
      return SignupError(EmailTaken);
    }
    var newUser := User(stamp, form.email, Some(form.phone), form.name, PatientRole, None, Some(form.password), None, now);
    var newPatient := Patient(newUser.id, form.name, form.email, form.phone, AgeOf(form.age), None, None, None, now);
    store.AddUser(newUser);
    store.AddPatient(newPatient);
    r := SignedUp(newUser);
  }

  /**
   * A taken email leaves the store unchanged. Otherwise one patient user and one
   * Patient are appended, the patient with the user's id, name, email and phone.
   */
  lemma SignupEffect(db: Db, form: SignupForm, stamp: string, now: int)
    ensures (exists i :: 0 <= i < |db.users| && db.users[i].email == form.email) ==> Signup(db, form, stamp, now) == db
    ensures (forall i :: 0 <= i < |db.users| ==> db.users[i].email != form.email) ==>
              var after := Signup(db, form, stamp, now);
              var u := after.users[|db.users|];
              var p := after.patients[|db.patients|];
              after.users == db.users + [u] && after.patients == db.patients + [p] &&
              u.role == PatientRole && u.password == Some(form.password) &&
              p.id == u.id && p.name == u.name && p.email == u.email && Some(p.phone) == u.phone &&
              after.(users := db.users, patients := db.patients) == db
  {
    var q := UserWithEmail(form.email);
    assert forall i :: 0 <= i < |db.users| ==> (q(db.users[i]) <==> db.users[i].email == form.email);
  }

  ghost predicate DistinctEmails(users: seq<User>)
  {
    forall i, j :: 0 <= i < j < |users| ==> users[i].email != users[j].email
  }

  /** Signup never introduces a second user with the same email. */
  lemma SignupKeepsEmailsDistinct(db: Db, form: SignupForm, stamp: string, now: int)
    requires DistinctEmails(db.users)
    ensures DistinctEmails(Signup(db, form, stamp, now).users)
  {
    var q := UserWithEmail(form.email);
    assert forall i :: 0 <= i < |db.users| ==> (q(db.users[i]) <==> db.users[i].email == form.email);
  }

  /** The stored age is absent exactly when the field did not parse or parsed to 0. */
  lemma AgeOfIff(parsed: Option<int>)
    ensures AgeOf(parsed).None? <==> parsed.None? || parsed == Some(0)
    ensures AgeOf(parsed).Some? ==> AgeOf(parsed) == parsed
  {
  }
}
