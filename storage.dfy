/**
 * The browser-local record store (src/utils/storage.ts): one list of records
 * per collection key, plus the current-session slot. A key that has never
 * been written (or has been removed) reads as the empty list.
 */
module Storage {
  import opened Wrappers
  import opened Types
  import opened Lists

  /** The collection keys of `STORAGE_KEYS`; `currentUser` is the separate session slot. */
  datatype Key =
    | HospitalsKey | DoctorsKey | PatientsKey | TimeSlotsKey
    | WeeklySchedulesKey | AppointmentsKey | UsersKey | SpecializationsKey

  /** The collection keys in the order `resetDemoData` removes them. */
  const CollectionKeys: seq<Key> :=
    [HospitalsKey, DoctorsKey, PatientsKey, TimeSlotsKey, WeeklySchedulesKey, AppointmentsKey, UsersKey, SpecializationsKey]

  /** A stored record: the generic functions see any of the entity types. */
  datatype Record =
    | HospitalRecord(hospital: Hospital)
    | DoctorRecord(doctor: Doctor)
    | PatientRecord(patient: Patient)
    | SlotRecord(slot: TimeSlot)
    | ScheduleRecord(schedule: WeeklySchedule)
    | AppointmentRecord(appointment: Appointment)
    | UserRecord(user: User)
    | SpecializationRecord(specialization: Specialization)
  {
    function Id(): string
    {
      match this
      case HospitalRecord(h) => h.id
      case DoctorRecord(d) => d.id
      case PatientRecord(p) => p.id
      case SlotRecord(s) => s.id
      case ScheduleRecord(s) => s.id
      case AppointmentRecord(a) => a.id
      case UserRecord(u) => u.id
      case SpecializationRecord(s) => s.id
    }

    /** The collection a record of this type is stored under. */
    function Kind(): Key
    {
      match this
      case HospitalRecord(_) => HospitalsKey
      case DoctorRecord(_) => DoctorsKey
      case PatientRecord(_) => PatientsKey
      case SlotRecord(_) => TimeSlotsKey
      case ScheduleRecord(_) => WeeklySchedulesKey
      case AppointmentRecord(_) => AppointmentsKey
      case UserRecord(_) => UsersKey
      case SpecializationRecord(_) => SpecializationsKey
    }
  }

  function RecordId(r: Record): string { r.Id() }

  function AsHospital(r: Record): Option<Hospital> { if r.HospitalRecord? then Some(r.hospital) else None }
  function AsDoctor(r: Record): Option<Doctor> { if r.DoctorRecord? then Some(r.doctor) else None }
  function AsPatient(r: Record): Option<Patient> { if r.PatientRecord? then Some(r.patient) else None }
  function AsSlot(r: Record): Option<TimeSlot> { if r.SlotRecord? then Some(r.slot) else None }
  function AsSchedule(r: Record): Option<WeeklySchedule> { if r.ScheduleRecord? then Some(r.schedule) else None }
  function AsAppointment(r: Record): Option<Appointment> { if r.AppointmentRecord? then Some(r.appointment) else None }
  function AsUser(r: Record): Option<User> { if r.UserRecord? then Some(r.user) else None }
  function AsSpecialization(r: Record): Option<Specialization> { if r.SpecializationRecord? then Some(r.specialization) else None }

  /** The whole store as typed collections, as the `getX()` wrappers return them. */
  datatype Db = Db(
    hospitals: seq<Hospital>,
    doctors: seq<Doctor>,
    patients: seq<Patient>,
    slots: seq<TimeSlot>,
    schedules: seq<WeeklySchedule>,
    appointments: seq<Appointment>,
    users: seq<User>,
    specializations: seq<Specialization>,
    current: Option<User>)

  const EmptyDb: Db := Db([], [], [], [], [], [], [], [], None)

  // ---------------------------------------------------------------------------
  // Demo data

  const SeedSpecializations: seq<Specialization> := [
    Specialization("1", "Cardiology", Some("Heart and cardiovascular system")),
    Specialization("2", "Neurology", Some("Brain and nervous system")),
    Specialization("3", "Pediatrics", Some("Children and adolescents")),
    Specialization("4", "Orthopedics", Some("Bones and joints")),
    Specialization("5", "Dermatology", Some("Skin, hair, and nails")),
    Specialization("6", "Psychiatry", Some("Mental health")),
    Specialization("7", "Oncology", Some("Cancer treatment")),
    Specialization("8", "General Medicine", Some("General health and wellness"))
  ]

  const AdminEmail: string := "admin@mednetwork.com"
  const AdminPassword: string := "admin123"

  /** The seeded system administrator; `now` is the creation time. */
  function SeedAdmin(now: int): User
  {
    User("1", AdminEmail, None, "System Administrator", AdminRole, None, Some(AdminPassword), Some(false), now)
  }

  /** What `initializeDemoData` leaves: each seed is written only into an empty collection. */
  function Seeded(db: Db, now: int): Db
  {
    db.(specializations := if |db.specializations| == 0 then SeedSpecializations else db.specializations,
        users := if |db.users| == 0 then [SeedAdmin(now)] else db.users)
  }

  /** What `resetDemoData` leaves: every key removed, then seeded. */
  function AfterReset(now: int): Db
  {
    Seeded(EmptyDb, now)
  }

  /** Calling `initializeDemoData` twice is the same as calling it once. */
  lemma SeedIdempotent(db: Db, t1: int, t2: int)
    ensures Seeded(Seeded(db, t1), t2) == Seeded(db, t1)
  {
  }

  /** Seeding never adds a second account to a non-empty users collection, and touches only the two seeded collections. */
  lemma SeedKeepsUsers(db: Db, now: int)
    ensures |db.users| > 0 ==> Seeded(db, now).users == db.users
    ensures |db.users| == 0 ==> Seeded(db, now).users == [SeedAdmin(now)]
    ensures Seeded(db, now).(users := db.users, specializations := db.specializations) == db
  {
  }

  /** After a reset: only the administrator and the eight specializations, no current user. */
  lemma ResetState(now: int)
    ensures AfterReset(now).users == [SeedAdmin(now)]
    ensures AfterReset(now).specializations == SeedSpecializations && |SeedSpecializations| == 8
    ensures AfterReset(now).hospitals == [] && AfterReset(now).doctors == [] && AfterReset(now).patients == []
    ensures AfterReset(now).slots == [] && AfterReset(now).schedules == [] && AfterReset(now).appointments == []
    ensures AfterReset(now).current == None
  {
  }

  lemma KeyListed(k: Key)
    ensures k in CollectionKeys
  {
    match k
    case HospitalsKey =>
    case DoctorsKey =>
    case PatientsKey =>
    case TimeSlotsKey =>
    case WeeklySchedulesKey =>
    case AppointmentsKey =>
    case UsersKey =>
    case SpecializationsKey =>
  }

  // ---------------------------------------------------------------------------
  // The store

  class Store {
    var data: map<Key, seq<Record>>
    var session: Option<User>

    /** Every record is stored under the key of its own type. */
    ghost predicate Valid()
      reads this
    {
      forall k, r :: k in data && r in data[k] ==> r.Kind() == k
    }

    /** A browser whose storage holds nothing yet. */
    constructor ()
      ensures data == map[] && session == None
      ensures Valid() && State() == EmptyDb
    {
      data := map[];
      session := None;
    }

    /** `getFromStorage`: the list under `k`, or the empty list when `k` was never written. */
    function Get(k: Key): (rs: seq<Record>)
      reads this
      ensures k !in data ==> rs == []
      ensures k in data ==> rs == data[k]
    {
      if k in data then data[k] else []
    }

    /** `setToStorage`. */
    method SetAll(k: Key, rs: seq<Record>)
      modifies this
      ensures data == old(data)[k := rs] && session == old(session)
    {
      data := data[k := rs];
    }

    /** `addToStorage`: the item is pushed at the end. */
    method Add(k: Key, item: Record)
      modifies this
      ensures data == old(data)[k := old(Get(k)) + [item]] && session == old(session)
      ensures Get(k) == old(Get(k)) + [item]
    {
      var rs := Get(k);
      rs := rs + [item];
      SetAll(k, rs);
    }

    /** `updateInStorage`: the first record with the item's id is replaced; without one nothing is written. */
    method Update(k: Key, item: Record)
      modifies this
      ensures session == old(session)
      ensures Get(k) == UpdateById(old(Get(k)), RecordId, item)
      ensures FindIndex(old(Get(k)), SameId(RecordId, item.Id())).None? ==> data == old(data)
      ensures FindIndex(old(Get(k)), SameId(RecordId, item.Id())).Some? ==>
                data == old(data)[k := UpdateById(old(Get(k)), RecordId, item)]
    {
      var rs := Get(k);
      var index := FindIndex(rs, SameId(RecordId, item.Id()));
      if index.Some? {
        rs := rs[index.value := item];
        SetAll(k, rs);
      }
    }

    /** `removeFromStorage`: every record with the id is dropped. */
    method Remove(k: Key, id: string)
      modifies this
      ensures data == old(data)[k := RemoveById(old(Get(k)), RecordId, id)] && session == old(session)
    {
      var rs := Get(k);
      var filtered := RemoveById(rs, RecordId, id);
      SetAll(k, filtered);
    }

    /** `localStorage.removeItem` on a collection key. */
    method RemoveItem(k: Key)
      modifies this
      ensures data == old(data) - {k} && session == old(session)
    {
      data := data - {k};
    }

    /** `getCurrentUser`. */
    function CurrentUser(): Option<User>
      reads this
    {
      session
    }

    /** `setCurrentUser`: a following `getCurrentUser` returns exactly `u`. */
    method SetCurrentUser(u: Option<User>)
      modifies this
      ensures CurrentUser() == u && data == old(data)
    {
      session := u;
    }

    // -------------------------------------------------------------------------
    // Typed views (getHospitals, getDoctors, ...)

    function Hospitals(): seq<Hospital> reads this { Select(Get(HospitalsKey), AsHospital) }
    function Doctors(): seq<Doctor> reads this { Select(Get(DoctorsKey), AsDoctor) }
    function Patients(): seq<Patient> reads this { Select(Get(PatientsKey), AsPatient) }
    function TimeSlots(): seq<TimeSlot> reads this { Select(Get(TimeSlotsKey), AsSlot) }
    function WeeklySchedules(): seq<WeeklySchedule> reads this { Select(Get(WeeklySchedulesKey), AsSchedule) }
    function Appointments(): seq<Appointment> reads this { Select(Get(AppointmentsKey), AsAppointment) }
    function Users(): seq<User> reads this { Select(Get(UsersKey), AsUser) }
    function Specializations(): seq<Specialization> reads this { Select(Get(SpecializationsKey), AsSpecialization) }

    /** The whole store, typed. */
    function State(): Db
      reads this
    {
      Db(Hospitals(), Doctors(), Patients(), TimeSlots(), WeeklySchedules(), Appointments(),
         Users(), Specializations(), session)
    }

    lemma StoredKinds(k: Key)
      requires Valid()
      ensures forall r :: r in Get(k) ==> r.Kind() == k
    {
    }

    // -------------------------------------------------------------------------
    // Typed setters (setHospitals, ...)

    method SetHospitals(xs: seq<Hospital>)
      requires Valid()
      modifies this
      ensures Valid() && State() == old(State()).(hospitals := xs)
    {
      var wrap := (x: Hospital) => HospitalRecord(x);
      SetAll(HospitalsKey, MapSeq(xs, wrap));
      SelectWrapped(xs, wrap, AsHospital);
    }

    method SetDoctors(xs: seq<Doctor>)
      requires Valid()
      modifies this
      ensures Valid() && State() == old(State()).(doctors := xs)
    {
      var wrap := (x: Doctor) => DoctorRecord(x);
      SetAll(DoctorsKey, MapSeq(xs, wrap));
      SelectWrapped(xs, wrap, AsDoctor);
    }

    method SetPatients(xs: seq<Patient>)
      requires Valid()
      modifies this
      ensures Valid() && State() == old(State()).(patients := xs)
    {
      var wrap := (x: Patient) => PatientRecord(x);
      SetAll(PatientsKey, MapSeq(xs, wrap));
      SelectWrapped(xs, wrap, AsPatient);
    }

    method SetTimeSlots(xs: seq<TimeSlot>)
      requires Valid()
      modifies this
      ensures Valid() && State() == old(State()).(slots := xs)
    {
      var wrap := (x: TimeSlot) => SlotRecord(x);
      SetAll(TimeSlotsKey, MapSeq(xs, wrap));
      SelectWrapped(xs, wrap, AsSlot);
    }

    method SetWeeklySchedules(xs: seq<WeeklySchedule>)
      requires Valid()
      modifies this
      ensures Valid() && State() == old(State()).(schedules := xs)
    {
      var wrap := (x: WeeklySchedule) => ScheduleRecord(x);
      SetAll(WeeklySchedulesKey, MapSeq(xs, wrap));
      SelectWrapped(xs, wrap, AsSchedule);
    }

    method SetAppointments(xs: seq<Appointment>)
      requires Valid()
      modifies this
      ensures Valid() && State() == old(State()).(appointments := xs)
    {
      var wrap := (x: Appointment) => AppointmentRecord(x);
      SetAll(AppointmentsKey, MapSeq(xs, wrap));
      SelectWrapped(xs, wrap, AsAppointment);
    }

    method SetUsers(xs: seq<User>)
      requires Valid()
      modifies this
      ensures Valid() && State() == old(State()).(users := xs)
    {
      var wrap := (x: User) => UserRecord(x);
      SetAll(UsersKey, MapSeq(xs, wrap));
      SelectWrapped(xs, wrap, AsUser);
    }

    method SetSpecializations(xs: seq<Specialization>)
      requires Valid()
      modifies this
      ensures Valid() && State() == old(State()).(specializations := xs)
    {
      var wrap := (x: Specialization) => SpecializationRecord(x);
      SetAll(SpecializationsKey, MapSeq(xs, wrap));
      SelectWrapped(xs, wrap, AsSpecialization);
    }

    // -------------------------------------------------------------------------
    // Typed appends (addHospital, ...)

    method AddHospital(x: Hospital)
      requires Valid()
      modifies this
      ensures Valid() && State() == old(State()).(hospitals := old(State()).hospitals + [x])
    {
      SelectSnoc(Get(HospitalsKey), HospitalRecord(x), AsHospital);
      Add(HospitalsKey, HospitalRecord(x));
    }

    method AddDoctor(x: Doctor)
      requires Valid()
      modifies this
      ensures Valid() && State() == old(State()).(doctors := old(State()).doctors + [x])
    {
      SelectSnoc(Get(DoctorsKey), DoctorRecord(x), AsDoctor);
      Add(DoctorsKey, DoctorRecord(x));
    }

    method AddPatient(x: Patient)
      requires Valid()
      modifies this
      ensures Valid() && State() == old(State()).(patients := old(State()).patients + [x])
    {
      SelectSnoc(Get(PatientsKey), PatientRecord(x), AsPatient);
      Add(PatientsKey, PatientRecord(x));
    }

    method AddTimeSlot(x: TimeSlot)
      requires Valid()
      modifies this
      ensures Valid() && State() == old(State()).(slots := old(State()).slots + [x])
    {
      SelectSnoc(Get(TimeSlotsKey), SlotRecord(x), AsSlot);
      Add(TimeSlotsKey, SlotRecord(x));
    }

    method AddWeeklySchedule(x: WeeklySchedule)
      requires Valid()
      modifies this
      ensures Valid() && State() == old(State()).(schedules := old(State()).schedules + [x])
    {
      SelectSnoc(Get(WeeklySchedulesKey), ScheduleRecord(x), AsSchedule);
      Add(WeeklySchedulesKey, ScheduleRecord(x));
    }

    method AddAppointment(x: Appointment)
      requires Valid()
      modifies this
      ensures Valid() && State() == old(State()).(appointments := old(State()).appointments + [x])
    {
      SelectSnoc(Get(AppointmentsKey), AppointmentRecord(x), AsAppointment);
      Add(AppointmentsKey, AppointmentRecord(x));
    }

    method AddUser(x: User)
      requires Valid()
      modifies this
      ensures Valid() && State() == old(State()).(users := old(State()).users + [x])
    {
      SelectSnoc(Get(UsersKey), UserRecord(x), AsUser);
      Add(UsersKey, UserRecord(x));
    }

    // -------------------------------------------------------------------------
    // Typed updates: the storage wrappers updateHospital, updateDoctor,
    // updateTimeSlot, updateWeeklySchedule, and the dashboards' direct
    // `updateInStorage('appointments' | 'users', ...)` calls.

    /** `updateInStorage` on one collection, with the record of that collection's kind. */
    method UpdateKind(k: Key, item: Record)
      requires Valid() && item.Kind() == k
      modifies this
      ensures Valid() && session == old(session)
      ensures Get(k) == UpdateById(old(Get(k)), RecordId, item)
      ensures forall k' :: k' != k ==> Get(k') == old(Get(k'))
    {
      ghost var before := data;
      Update(k, item);
      assert Valid() by {
        forall k', r | k' in data && r in data[k'] ensures r.Kind() == k' {
          if k' != k {
            assert r in before[k'];
          } else {
            assert r in old(Get(k)) || r == item;
          }
        }
      }
    }

    method UpdateHospital(x: Hospital)
      requires Valid()
      modifies this
      ensures Valid() && State() == old(State()).(hospitals := UpdateById(old(State()).hospitals, HospitalId, x))
    {
      StoredKinds(HospitalsKey);
      SelectUpdate(Get(HospitalsKey), RecordId, HospitalRecord(x), AsHospital, HospitalId);
      UpdateKind(HospitalsKey, HospitalRecord(x));
    }

    method UpdateDoctor(x: Doctor)
      requires Valid()
      modifies this
      ensures Valid() && State() == old(State()).(doctors := UpdateById(old(State()).doctors, DoctorId, x))
    {
      StoredKinds(DoctorsKey);
      SelectUpdate(Get(DoctorsKey), RecordId, DoctorRecord(x), AsDoctor, DoctorId);
      UpdateKind(DoctorsKey, DoctorRecord(x));
    }

    method UpdateTimeSlot(x: TimeSlot)
      requires Valid()
      modifies this
      ensures Valid() && State() == old(State()).(slots := UpdateById(old(State()).slots, SlotId, x))
    {
      StoredKinds(TimeSlotsKey);
      SelectUpdate(Get(TimeSlotsKey), RecordId, SlotRecord(x), AsSlot, SlotId);
      UpdateKind(TimeSlotsKey, SlotRecord(x));
    }

    method UpdateWeeklySchedule(x: WeeklySchedule)
      requires Valid()
      modifies this
      ensures Valid() && State() == old(State()).(schedules := UpdateById(old(State()).schedules, ScheduleId, x))
    {
      StoredKinds(WeeklySchedulesKey);
      SelectUpdate(Get(WeeklySchedulesKey), RecordId, ScheduleRecord(x), AsSchedule, ScheduleId);
      UpdateKind(WeeklySchedulesKey, ScheduleRecord(x));
    }

    method UpdateAppointment(x: Appointment)
      requires Valid()
      modifies this
      ensures Valid() && State() == old(State()).(appointments := UpdateById(old(State()).appointments, AppointmentId, x))
    {
      StoredKinds(AppointmentsKey);
      SelectUpdate(Get(AppointmentsKey), RecordId, AppointmentRecord(x), AsAppointment, AppointmentId);
      UpdateKind(AppointmentsKey, AppointmentRecord(x));
    }

    method UpdateUser(x: User)
      requires Valid()
      modifies this
      ensures Valid() && State() == old(State()).(users := UpdateById(old(State()).users, UserId, x))
    {
      StoredKinds(UsersKey);
      SelectUpdate(Get(UsersKey), RecordId, UserRecord(x), AsUser, UserId);
      UpdateKind(UsersKey, UserRecord(x));
    }

    // -------------------------------------------------------------------------
    // Demo data

    /** `initializeDemoData`. */
    method Initialize(now: int)
      requires Valid()
      modifies this
      ensures Valid() && State() == Seeded(old(State()), now)
    {
      if |Specializations()| == 0 {
        SetSpecializations(SeedSpecializations);
      }
      if |Users()| == 0 {
        SetUsers([SeedAdmin(now)]);
      }
    }

    /** `resetDemoData`: remove every key, the session slot included, then seed. */
    method Reset(now: int)
      modifies this
      ensures Valid() && State() == AfterReset(now)
    {
      var i := 0;
      while i < |CollectionKeys|
        invariant 0 <= i <= |CollectionKeys|
        invariant forall k :: k in data ==> k !in CollectionKeys[..i]
      {
        RemoveItem(CollectionKeys[i]);
        i := i + 1;
      }
      SetCurrentUser(None);
      assert CollectionKeys[..i] == CollectionKeys;
      forall k | k in data ensures false {
        KeyListed(k);
      }
      assert data == map[];
      Initialize(now);
    }
  }
}
