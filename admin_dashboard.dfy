/**
 * The system administrator's dashboard (src/components/dashboard/AdminDashboard.tsx):
 * creating a hospital together with its administrator account, and editing a
 * hospital together with the first user attached to it.
 */
module AdminDashboard {
  import opened Wrappers
  import opened Types
  import opened Lists
  import opened Text
  import opened Storage

  /** The add/edit form; empty optional fields are stored as absent. */
  datatype HospitalForm = HospitalForm(name: string, email: string, phone: string, address: string,
                                       helpline: string, description: string)

  const AdministratorSuffix: string := " Administrator"

  /** The password given to every account an administrator creates. */
  const InitialPassword: string := "testing"

  /** `${name} Administrator`. */
  function AdministratorName(hospitalName: string): string
  {
    hospitalName + AdministratorSuffix
  }

  function NewHospital(form: HospitalForm, stamp: string, now: int): Hospital
  {
    Hospital(stamp, form.name, form.email, form.phone, form.address, OptText(form.helpline), OptText(form.description), now)
  }

  function NewHospitalAdmin(form: HospitalForm, stamp: string, now: int): User
  {
    User(stamp + "_admin", form.email, Some(form.phone), AdministratorName(form.name), HospitalAdminRole,
         Some(stamp), Some(InitialPassword), Some(true), now)
  }

  /** The store after `handleAddHospital`. */
  function AddHospitalTo(db: Db, form: HospitalForm, stamp: string, now: int): Db
  {
    db.(hospitals := db.hospitals + [NewHospital(form, stamp, now)], users := db.users + [NewHospitalAdmin(form, stamp, now)])
  }

  /** `handleAddHospital`. */
  method AddHospital(store: Store, form: HospitalForm, stamp: string, now: int)
    requires store.Valid()
    modifies store
    ensures store.Valid()
    ensures store.State() == AddHospitalTo(old(store.State()), form, stamp, now)
  {
    var hospital := Hospital(stamp, form.name, form.email, form.phone, form.address,
                             OptText(form.helpline), OptText(form.description), now);
    var hospitalAdmin := User(stamp + "_admin", form.email, Some(form.phone), form.name + AdministratorSuffix,
                              HospitalAdminRole, Some(hospital.id), Some(InitialPassword), Some(true), now);
    store.AddHospital(hospital);
    store.AddUser(hospitalAdmin);
  }

  /**
   * Exactly one hospital and one user are appended; the user administers the
   * new hospital under the hospital's name plus " Administrator", with its email
   * and phone, the initial password and a pending first login.
   */
  lemma AddHospitalPair(db: Db, form: HospitalForm, stamp: string, now: int)
    ensures var after := AddHospitalTo(db, form, stamp, now);
            var h := after.hospitals[|db.hospitals|];
            var u := after.users[|db.users|];
            after.hospitals == db.hospitals + [h] && after.users == db.users + [u] &&
            after.(hospitals := db.hospitals, users := db.users) == db &&
            u.role == HospitalAdminRole && u.hospitalId == Some(h.id) && u.id != h.id &&
            u.name == h.name + " Administrator" && u.email == h.email && u.phone == Some(h.phone) &&
            u.password == Some("testing") && u.isFirstLogin == Some(true) &&
            (h.helpline.None? <==> form.helpline == "") && (h.description.None? <==> form.description == "")
  {
    var after := AddHospitalTo(db, form, stamp, now);
    assert |after.users[|db.users|].id| == |stamp| + 6;
  }

  /** No duplicate-email check: a second account with an email already in use is created all the same. */
  lemma AddHospitalAdmitsDuplicateEmail(db: Db, form: HospitalForm, stamp: string, now: int, k: nat)
    requires k < |db.users| && db.users[k].email == form.email
    ensures var users := AddHospitalTo(db, form, stamp, now).users;
            users[k].email == users[|db.users|].email && k != |db.users|
  {
  }

  function EditedHospital(editing: Hospital, form: HospitalForm): Hospital
  {
    editing.(name := form.name, email := form.email, phone := form.phone, address := form.address,
             helpline := OptText(form.helpline), description := OptText(form.description))
  }

  function AdminOf(hospitalId: string): User -> bool
  {
    (u: User) => u.hospitalId == Some(hospitalId)
  }

  function RenamedAdmin(u: User, form: HospitalForm): User
  {
    u.(name := AdministratorName(form.name), email := form.email, phone := Some(form.phone))
  }

  /** The store after `handleUpdateHospital`. */
  function UpdateHospitalIn(db: Db, editing: Option<Hospital>, form: HospitalForm): Db
  {
    if editing.None? then db
    else
      var e := editing.value;
      db.(hospitals := UpdateById(db.hospitals, HospitalId, EditedHospital(e, form)),
          users := match Find(db.users, AdminOf(e.id))
                   case None => db.users
                   case Some(u) => UpdateById(db.users, UserId, RenamedAdmin(u, form)))
  }

  /** `handleUpdateHospital`. */
  method UpdateHospital(store: Store, editing: Option<Hospital>, form: HospitalForm)
    requires store.Valid()
    modifies store
    ensures store.Valid()
    ensures store.State() == UpdateHospitalIn(old(store.State()), editing, form)
  {
    if editing.None? {
      return;
    }
    var updatedHospital := EditedHospital(editing.value, form);
    store.UpdateHospital(updatedHospital);
    var users := store.Users();
    var hospitalAdmin := Find(users, AdminOf(editing.value.id));
    if hospitalAdmin.Some? {
      var updatedUser := RenamedAdmin(hospitalAdmin.value, form);
      store.UpdateUser(updatedUser);
    }
  }

  /**
   * The edited hospital keeps its id and creation time and takes every form
   * field; with unique ids it replaces the first hospital with its id, and only
   * the first user attached to the hospital is renamed and given the new email
   * and phone (no user changes when none is attached).
   */
  lemma UpdateHospitalEffect(db: Db, e: Hospital, form: HospitalForm)
    requires UniqueIds(db.users, UserId)
    ensures var h := EditedHospital(e, form);
            h.id == e.id && h.createdAt == e.createdAt && h.name == form.name && h.email == form.email &&
            h.phone == form.phone && h.address == form.address &&
            h.helpline == OptText(form.helpline) && h.description == OptText(form.description)
    ensures UpdateHospitalIn(db, Some(e), form).hospitals == UpdateById(db.hospitals, HospitalId, EditedHospital(e, form))
    ensures FindIndex(db.users, AdminOf(e.id)).None? ==> UpdateHospitalIn(db, Some(e), form).users == db.users
    ensures FindIndex(db.users, AdminOf(e.id)).Some? ==>
              var i := FindIndex(db.users, AdminOf(e.id)).value;
              UpdateHospitalIn(db, Some(e), form).users == db.users[i := RenamedAdmin(db.users[i], form)] &&
              db.users[i].hospitalId == Some(e.id) &&
              UpdateHospitalIn(db, Some(e), form).users[i].name == form.name + " Administrator"
    ensures UpdateHospitalIn(db, Some(e), form).(hospitals := db.hospitals, users := db.users) == db
  {
    FindAtIndex(db.users, AdminOf(e.id));
    match FindIndex(db.users, AdminOf(e.id))
    case None =>
    case Some(i) =>
      UpdateFound(db.users, UserId, AdminOf(e.id), i, RenamedAdmin(db.users[i], form));
  }
}
