/**
 * A hospital administrator's dashboard (src/components/dashboard/HospitalAdminDashboard.tsx):
 * creating a doctor together with its login, editing a doctor, the hospital's
 * doctor and appointment lists and the analytics counts. `me` is the
 * logged-in hospital administrator user.
 */
module HospitalAdminDashboard {
  import opened Wrappers
  import opened Types
  import opened Lists
  import opened Text
  import opened Storage
  import opened Lookups
  import opened AdminDashboard

  /**
   * The doctor form. `experience` and `consultationFeeValue` are what `parseInt`
   * made of the experience and fee fields (`None` for NaN).
   */
  datatype DoctorForm = DoctorForm(name: string, email: string, phone: string, specialization: string,
                                   experience: Option<int>, qualification: string,
                                   consultationFee: string, consultationFeeValue: Option<int>)

  /** `currentUser.name?.replace(' Administrator', '') || 'Hospital'`. */
  function HospitalNameOf(adminName: string): string
  {
    var stripped := ReplaceFirst(adminName, AdministratorSuffix, "");
    if stripped == "" then "Hospital" else stripped
  }

  /** `consultationFee ? parseInt(consultationFee) : undefined`. */
  function FeeOf(form: DoctorForm): Option<int>
  {
    if form.consultationFee == "" then None else form.consultationFeeValue
  }

  function NewDoctor(me: User, form: DoctorForm, stamp: string, now: int): Doctor
  {
    Doctor(stamp, form.name, form.email, form.phone, form.specialization, form.experience,
           me.hospitalId.GetOr(""), HospitalNameOf(me.name), OptText(form.qualification), FeeOf(form), Some(true), now)
  }

  function NewDoctorUser(me: User, form: DoctorForm, stamp: string, now: int): User
  {
    User(stamp + "_doctor", form.email, Some(form.phone), form.name, DoctorRole, Some(me.hospitalId.GetOr("")),
         Some(InitialPassword), Some(true), now)
  }

  /** The store after `handleAddDoctor`. */
  function AddDoctorTo(db: Db, me: User, form: DoctorForm, stamp: string, now: int): Db
  {
    db.(doctors := db.doctors + [NewDoctor(me, form, stamp, now)], users := db.users + [NewDoctorUser(me, form, stamp, now)])
  }

  /** `handleAddDoctor`. */
  method AddDoctor(store: Store, me: User, form: DoctorForm, stamp: string, now: int)
    requires store.Valid()
    modifies store
    ensures store.Valid()
    ensures store.State() == AddDoctorTo(old(store.State()), me, form, stamp, now)
  {
    var doctor := Doctor(stamp, form.name, form.email, form.phone, form.specialization, form.experience,
                         me.hospitalId.GetOr(""), HospitalNameOf(me.name), OptText(form.qualification), FeeOf(form),
                         Some(true), now);
    var doctorUser := User(stamp + "_doctor", form.email, Some(form.phone), form.name, DoctorRole,
                           Some(me.hospitalId.GetOr("")), Some(InitialPassword), Some(true), now);
    store.AddDoctor(doctor);
    store.AddUser(doctorUser);
  }

  /**
   * Exactly one Doctor and one User are appended: a doctor login with the same
   * email, phone and name, the initial password, and the administrator's
   * hospital id (or ""). The login's id is not the Doctor record's id.
   */
  lemma AddDoctorPair(db: Db, me: User, form: DoctorForm, stamp: string, now: int)
    ensures var after := AddDoctorTo(db, me, form, stamp, now);
            var d := after.doctors[|db.doctors|];
            var u := after.users[|db.users|];
            after.doctors == db.doctors + [d] && after.users == db.users + [u] &&
            after.(doctors := db.doctors, users := db.users) == db &&
            u.role == DoctorRole && u.email == d.email && u.phone == Some(d.phone) && u.name == d.name &&
            u.password == Some("testing") && u.hospitalId == Some(d.hospitalId) &&
            (me.hospitalId.None? ==> d.hospitalId == "") && (me.hospitalId.Some? ==> d.hospitalId == me.hospitalId.value) &&
            d.hospitalName == HospitalNameOf(me.name) && (d.qualification.None? <==> form.qualification == "") &&
            (form.consultationFee == "" ==> d.consultationFee.None?) &&
            u.id != d.id
  {
    var after := AddDoctorTo(db, me, form, stamp, now);
    assert |after.users[|db.users|].id| == |stamp| + 7;
  }

  /**
   * Stripping " Administrator" from an administrator name recovers the hospital
   * name whenever that name does not itself contain " Administrator"; the empty
   * name comes back as "Hospital".
   */
  lemma HospitalNameRoundTrip(hospitalName: string)
    requires !Contains(hospitalName, AdministratorSuffix)
    ensures HospitalNameOf(AdministratorName(hospitalName)) == if hospitalName == "" then "Hospital" else hospitalName
  {
    assert forall k :: 0 < k < |AdministratorSuffix| ==> AdministratorSuffix[k] != AdministratorSuffix[0];
    StripAppended(hospitalName, AdministratorSuffix);
  }

  function EditedDoctor(editing: Doctor, form: DoctorForm): Doctor
  {
    editing.(name := form.name, email := form.email, phone := form.phone, specialization := form.specialization,
             experience := form.experience, qualification := OptText(form.qualification), consultationFee := FeeOf(form))
  }

  function RenamedDoctorUser(u: User, form: DoctorForm): User
  {
    u.(name := form.name, email := form.email, phone := Some(form.phone))
  }

  /** The store after `handleUpdateDoctor`. */
  function UpdateDoctorIn(db: Db, editing: Option<Doctor>, form: DoctorForm): Db
  {
    if editing.None? then db
    else
      var e := editing.value;
      db.(doctors := UpdateById(db.doctors, DoctorId, EditedDoctor(e, form)),
          users := match Find(db.users, UserWithEmail(e.email))
                   case None => db.users
                   case Some(u) => UpdateById(db.users, UserId, RenamedDoctorUser(u, form)))
  }

  /** `handleUpdateDoctor`. */
  method UpdateDoctor(store: Store, editing: Option<Doctor>, form: DoctorForm)
    requires store.Valid()
    modifies store
    ensures store.Valid()
    ensures store.State() == UpdateDoctorIn(old(store.State()), editing, form)
  {
    if editing.None? {
      return;
    }
    var updatedDoctor := EditedDoctor(editing.value, form);
    store.UpdateDoctor(updatedDoctor);
    var users := store.Users();
    var doctorUser := Find(users, UserWithEmail(editing.value.email));
    if doctorUser.Some? {
      var updatedUser := RenamedDoctorUser(doctorUser.value, form);
      store.UpdateUser(updatedUser);
    }
  }

  /**
   * The edit keeps the doctor's id, hospital, hospital name, first-login flag and
   * creation time and changes only the form's fields; with unique ids the first
   * user with the doctor's old email gets the new name, email and phone, and no
   * user changes when there is none.
   */
  lemma UpdateDoctorEffect(db: Db, e: Doctor, form: DoctorForm)
    requires UniqueIds(db.users, UserId)
    ensures var d := EditedDoctor(e, form);
            d.id == e.id && d.hospitalId == e.hospitalId && d.hospitalName == e.hospitalName &&
            d.isFirstLogin == e.isFirstLogin && d.createdAt == e.createdAt &&
            d.(name := e.name, email := e.email, phone := e.phone, specialization := e.specialization,
               experience := e.experience, qualification := e.qualification, consultationFee := e.consultationFee) == e
    ensures UpdateDoctorIn(db, Some(e), form).doctors == UpdateById(db.doctors, DoctorId, EditedDoctor(e, form))
    ensures FindIndex(db.users, UserWithEmail(e.email)).None? ==> UpdateDoctorIn(db, Some(e), form).users == db.users
    ensures FindIndex(db.users, UserWithEmail(e.email)).Some? ==>
              var i := FindIndex(db.users, UserWithEmail(e.email)).value;
              db.users[i].email == e.email &&
              UpdateDoctorIn(db, Some(e), form).users == db.users[i := RenamedDoctorUser(db.users[i], form)]
    ensures UpdateDoctorIn(db, Some(e), form).(doctors := db.doctors, users := db.users) == db
  {
    FindAtIndex(db.users, UserWithEmail(e.email));
    match FindIndex(db.users, UserWithEmail(e.email))
    case None =>
    case Some(i) =>
      UpdateFound(db.users, UserId, UserWithEmail(e.email), i, RenamedDoctorUser(db.users[i], form));
  }

  // ---------------------------------------------------------------------------
  // Lists and analytics

  function InHospitalOf(me: User): Doctor -> bool
  {
    (d: Doctor) => Some(d.hospitalId) == me.hospitalId
  }

  /** `hospitalDoctors`. */
  function HospitalDoctors(doctors: seq<Doctor>, me: User): seq<Doctor>
  {
    Filter(doctors, InHospitalOf(me))
  }

  /** An appointment record has no `hospitalId`: the comparison sees `undefined`. */
  function AppointmentInHospitalOf(me: User): Appointment -> bool
  {
    (a: Appointment) => me.hospitalId.None?
  }

  /** `hospitalAppointments`. */
  function HospitalAppointments(appointments: seq<Appointment>, me: User): seq<Appointment>
  {
    Filter(appointments, AppointmentInHospitalOf(me))
  }

  /** A hospital administrator with a hospital sees no appointments; one without sees all of them. */
  lemma HospitalAppointmentsEmpty(appointments: seq<Appointment>, doctors: seq<Doctor>, me: User, d: Doctor)
    ensures me.hospitalId.Some? ==> HospitalAppointments(appointments, me) == []
    ensures me.hospitalId.None? ==> HospitalAppointments(appointments, me) == appointments
    ensures d in HospitalDoctors(doctors, me) <==> d in doctors && me.hospitalId == Some(d.hospitalId)
  {
    FilterEmpty(appointments, AppointmentInHospitalOf(me));
    FilterIdentity(appointments, AppointmentInHospitalOf(me));
    FilterMembership(doctors, InHospitalOf(me), d);
  }

  function WithStatus(status: Status): Appointment -> bool
  {
    (a: Appointment) => a.status == status
  }

  function OfDoctorId(doctorId: string): Appointment -> bool
  {
    (a: Appointment) => a.doctorId == doctorId
  }

  function OnDay(date: int): Appointment -> bool
  {
    (a: Appointment) => a.date == date
  }

  datatype DoctorCount = DoctorCount(doctorName: string, appointments: nat)

  datatype Analytics = Analytics(total: nat, completed: nat, pending: nat, cancelled: nat, byDoctor: seq<DoctorCount>)

  /** `appointmentsByDoctor`: one row per doctor, in order. */
  function ByDoctor(doctors: seq<Doctor>, appointments: seq<Appointment>): (r: seq<DoctorCount>)
    ensures |r| == |doctors|
    ensures forall i :: 0 <= i < |doctors| ==>
              r[i] == DoctorCount(doctors[i].name, Count(appointments, OfDoctorId(doctors[i].id)))
  {
    if |doctors| == 0 then []
    else [DoctorCount(doctors[0].name, Count(appointments, OfDoctorId(doctors[0].id)))] + ByDoctor(doctors[1..], appointments)
  }

  /** The day's appointments of the hospital. */
  function DayAppointments(appointments: seq<Appointment>, me: User, date: int): seq<Appointment>
  {
    Filter(HospitalAppointments(appointments, me), OnDay(date))
  }

  /** `getAnalyticsData` for the chosen day. */
  function AnalyticsFor(doctors: seq<Doctor>, appointments: seq<Appointment>, me: User, date: int): Analytics
  {
    var day := DayAppointments(appointments, me, date);
    Analytics(|day|, Count(day, WithStatus(Completed)), Count(day, WithStatus(Scheduled)),
              Count(day, WithStatus(Cancelled)), ByDoctor(HospitalDoctors(doctors, me), day))
  }

  function SumCounts(rows: seq<DoctorCount>): nat
  {
    if |rows| == 0 then 0 else rows[0].appointments + SumCounts(rows[1..])
  }

  function IsNotStatus(status: Status): Appointment -> bool
  {
    (a: Appointment) => a.status != status
  }

  /** With three statuses, completed + pending + cancelled is the day's total. */
  lemma StatusCountsPartition(doctors: seq<Doctor>, appointments: seq<Appointment>, me: User, date: int)
    ensures var r := AnalyticsFor(doctors, appointments, me, date);
            r.completed + r.pending + r.cancelled == r.total
  {
    var day := DayAppointments(appointments, me, date);
    CountDisjointUnion(day, WithStatus(Completed), WithStatus(Scheduled), IsNotStatus(Cancelled));
    CountDisjointUnion(day, IsNotStatus(Cancelled), WithStatus(Cancelled), (a: Appointment) => true);
    FilterIdentity(day, (a: Appointment) => true);
  }

  function InDoctors(ids: seq<string>): Appointment -> bool
  {
    (a: Appointment) => a.doctorId in ids
  }

  function IdsOf(doctors: seq<Doctor>): (r: seq<string>)
    ensures |r| == |doctors| && forall i :: 0 <= i < |doctors| ==> r[i] == doctors[i].id
  {
    if |doctors| == 0 then [] else [doctors[0].id] + IdsOf(doctors[1..])
  }

  /** With distinct doctor ids, the per-doctor rows count the appointments of those doctors. */
  lemma {:induction false} SumCountsIsCount(doctors: seq<Doctor>, day: seq<Appointment>)
    requires UniqueIds(doctors, DoctorId)
    ensures SumCounts(ByDoctor(doctors, day)) == Count(day, InDoctors(IdsOf(doctors)))
  {
    if |doctors| == 0 {
      FilterEmpty(day, InDoctors(IdsOf(doctors)));
    } else {
      var rest := doctors[1..];
      assert UniqueIds(rest, DoctorId) by {
        forall i, j | 0 <= i < j < |rest| ensures rest[i].id != rest[j].id {
          assert rest[i] == doctors[i + 1] && rest[j] == doctors[j + 1];
        }
      }
      SumCountsIsCount(rest, day);
      assert ByDoctor(doctors, day)[1..] == ByDoctor(rest, day);
      assert IdsOf(doctors) == [doctors[0].id] + IdsOf(rest);
      assert doctors[0].id !in IdsOf(rest) by {
        forall k | 0 <= k < |rest| ensures IdsOf(rest)[k] != doctors[0].id {
          assert rest[k] == doctors[k + 1];
        }
      }
      CountDisjointUnion(day, OfDoctorId(doctors[0].id), InDoctors(IdsOf(rest)), InDoctors(IdsOf(doctors)));
    }
  }

  /**
   * `appointmentsByDoctor` has one row per hospital doctor, in order, each with
   * that doctor's count of the day; with distinct doctor ids the rows sum to at
   * most the day's total.
   */
  lemma ByDoctorBounded(doctors: seq<Doctor>, appointments: seq<Appointment>, me: User, date: int)
    requires UniqueIds(doctors, DoctorId)
    ensures var r := AnalyticsFor(doctors, appointments, me, date);
            var hd := HospitalDoctors(doctors, me);
            |r.byDoctor| == |hd| &&
            (forall i :: 0 <= i < |hd| ==> r.byDoctor[i].doctorName == hd[i].name) &&
            SumCounts(r.byDoctor) <= r.total
  {
    var hd := HospitalDoctors(doctors, me);
    var day := DayAppointments(appointments, me, date);
    FilterKeepsUniqueIds(doctors, DoctorId, InHospitalOf(me));
    SumCountsIsCount(hd, day);
    CountMonotone(day, InDoctors(IdsOf(hd)), (a: Appointment) => true);
    FilterIdentity(day, (a: Appointment) => true);
  }
}
