/**
 * The patient's dashboard (src/components/dashboard/PatientDashboard.tsx): the
 * doctor search, slot availability, booking, cancelling and the slot repair.
 * `me` is the logged-in patient user; a selected doctor or slot is an `Option`
 * holding the snapshot the component had loaded.
 */
module PatientDashboard {
  import opened Wrappers
  import opened Types
  import opened Lists
  import opened Text
  import opened Storage
  import opened Lookups

  // ---------------------------------------------------------------------------
  // Search and availability

  /** The search form; `date` is the chosen day, if any. The time field filters nothing. */
  datatype SearchFilters = SearchFilters(specialization: string, doctorName: string, hospitalName: string, date: Option<int>)

  /** `!filter || field.toLowerCase().includes(filter.toLowerCase())`. */
  predicate Matches(field: string, filter: string)
  {
    filter == "" || Contains(Lower(field), Lower(filter))
  }

  function DoctorMatches(f: SearchFilters): Doctor -> bool
  {
    (d: Doctor) => Matches(d.specialization, f.specialization) && Matches(d.name, f.doctorName) &&
                   Matches(d.hospitalName, f.hospitalName)
  }

  /** `filteredDoctors`. */
  function FilteredDoctors(doctors: seq<Doctor>, f: SearchFilters): seq<Doctor>
  {
    Filter(doctors, DoctorMatches(f))
  }

  function SlotOpen(f: SearchFilters): TimeSlot -> bool
  {
    (s: TimeSlot) => !(!s.isAvailable || s.currentPatients >= s.maxPatients) && (f.date.None? || s.date == f.date.value)
  }

  /** `availableSlots`. */
  function AvailableSlots(slots: seq<TimeSlot>, f: SearchFilters): seq<TimeSlot>
  {
    Filter(slots, SlotOpen(f))
  }

  function SlotOfSelected(selected: Option<Doctor>): TimeSlot -> bool
  {
    (s: TimeSlot) => selected.Some? && s.doctorId == selected.value.id
  }

  /** `doctorSlots`: compared with the selected Doctor *record*'s id. */
  function DoctorSlots(slots: seq<TimeSlot>, f: SearchFilters, selected: Option<Doctor>): seq<TimeSlot>
  {
    Filter(AvailableSlots(slots, f), SlotOfSelected(selected))
  }

  function OfPatient(patientId: string): Appointment -> bool
  {
    (a: Appointment) => a.patientId == patientId
  }

  /** The appointments the dashboard lists: those of the current patient. */
  function PatientAppointments(appointments: seq<Appointment>, me: User): seq<Appointment>
  {
    Filter(appointments, OfPatient(me.id))
  }

  /** The empty-filter guard is redundant: the empty string is a substring of everything. */
  lemma MatchesIff(field: string, filter: string)
    ensures Matches(field, filter) <==> Contains(Lower(field), Lower(filter))
  {
    if filter == "" {
      assert Lower(filter) == "";
      ContainsEmpty(Lower(field));
    }
  }

  /** A doctor is listed iff every filter is a case-insensitive substring of its field; empty filters list everyone. */
  lemma FilteredDoctorsSelect(doctors: seq<Doctor>, f: SearchFilters, d: Doctor)
    ensures d in FilteredDoctors(doctors, f) <==>
              d in doctors && Contains(Lower(d.specialization), Lower(f.specialization)) &&
              Contains(Lower(d.name), Lower(f.doctorName)) && Contains(Lower(d.hospitalName), Lower(f.hospitalName))
    ensures f.specialization == "" && f.doctorName == "" && f.hospitalName == "" ==> FilteredDoctors(doctors, f) == doctors
  {
    FilterMembership(doctors, DoctorMatches(f), d);
    MatchesIff(d.specialization, f.specialization);
    MatchesIff(d.name, f.doctorName);
    MatchesIff(d.hospitalName, f.hospitalName);
    FilterIdentity(doctors, DoctorMatches(f));
  }

  /** A slot is offered iff it is marked available, has room, and is on the chosen day when one is chosen. */
  lemma AvailableSlotsSelect(slots: seq<TimeSlot>, f: SearchFilters, sel: Option<Doctor>, s: TimeSlot)
    ensures s in AvailableSlots(slots, f) <==>
              s in slots && s.isAvailable && s.currentPatients < s.maxPatients && (f.date.None? || s.date == f.date.value)
    ensures s in DoctorSlots(slots, f, sel) <==> sel.Some? && s in AvailableSlots(slots, f) && s.doctorId == sel.value.id
    ensures sel.None? ==> DoctorSlots(slots, f, sel) == []
  {
    FilterMembership(slots, SlotOpen(f), s);
    FilterMembership(AvailableSlots(slots, f), SlotOfSelected(sel), s);
    FilterEmpty(AvailableSlots(slots, f), SlotOfSelected(sel));
  }

  // ---------------------------------------------------------------------------
  // handleBookAppointment

  /** The appointment booking builds. */
  function BookedAppointment(me: User, doctor: Doctor, slot: TimeSlot, stamp: string, now: int): Appointment
  {
    Appointment(stamp, me.id, doctor.id, slot.id, slot.date, slot.startTime, slot.endTime, Scheduled, Some(""), now)
  }

  /** The snapshot with one more patient; `isAvailable` is left as it was. */
  function Bumped(slot: TimeSlot): TimeSlot
  {
    slot.(currentPatients := slot.currentPatients + 1)
  }

  /** The store after a booking. */
  function Book(db: Db, me: User, doctor: Option<Doctor>, slot: Option<TimeSlot>, stamp: string, now: int): Db
  {
    if doctor.None? || slot.None? then db
    else db.(appointments := db.appointments + [BookedAppointment(me, doctor.value, slot.value, stamp, now)],
             slots := UpdateById(db.slots, SlotId, Bumped(slot.value)))
  }

  /** `handleBookAppointment`. */
  method BookAppointment(store: Store, me: User, selectedDoctor: Option<Doctor>, selectedSlot: Option<TimeSlot>, stamp: string, now: int)
    requires store.Valid()
    modifies store
    ensures store.Valid()
    ensures store.State() == Book(old(store.State()), me, selectedDoctor, selectedSlot, stamp, now)
  {
    if selectedDoctor.None? || selectedSlot.None? {
      return;
    }
    var doctor := selectedDoctor.value;
    var slot := selectedSlot.value;
    var appointment := Appointment(stamp, me.id, doctor.id, slot.id, slot.date, slot.startTime, slot.endTime,
                                   Scheduled, Some(""), now);
    ghost var before := store.State();
    store.AddAppointment(appointment);
    ghost var mid := store.State();
    assert mid == before.(appointments := before.appointments + [appointment]);
    var updatedSlot := slot.(currentPatients := slot.currentPatients + 1);
    store.UpdateTimeSlot(updatedSlot);
    assert store.State() == mid.(slots := UpdateById(mid.slots, SlotId, updatedSlot));
  }

  /**
   * Without both selections nothing changes. Otherwise exactly one scheduled
   * appointment of this patient for the slot (its date and times copied) is
   * appended, it is listed last among the patient's appointments, and only the
   * slots and appointments change.
   */
  lemma BookingAppendsOne(db: Db, me: User, doctor: Option<Doctor>, slot: Option<TimeSlot>, stamp: string, now: int)
    ensures doctor.None? || slot.None? ==> Book(db, me, doctor, slot, stamp, now) == db
    ensures doctor.Some? && slot.Some? ==>
              var after := Book(db, me, doctor, slot, stamp, now);
              var a := after.appointments[|db.appointments|];
              |after.appointments| == |db.appointments| + 1 &&
              after.appointments[..|db.appointments|] == db.appointments &&
              a.status == Scheduled && a.patientId == me.id && a.doctorId == doctor.value.id &&
              a.timeSlotId == slot.value.id && a.date == slot.value.date &&
              a.startTime == slot.value.startTime && a.endTime == slot.value.endTime &&
              PatientAppointments(after.appointments, me) == PatientAppointments(db.appointments, me) + [a] &&
              after.(appointments := db.appointments, slots := db.slots) == db
  {
    if doctor.Some? && slot.Some? {
      var a := BookedAppointment(me, doctor.value, slot.value, stamp, now);
      FilterSnoc(db.appointments, a, OfPatient(me.id));
      assert (db.appointments + [a])[..|db.appointments|] == db.appointments;
    }
  }

  /** Writing the same update twice is writing it once. */
  lemma UpdateByIdTwice(slots: seq<TimeSlot>, x: TimeSlot)
    ensures UpdateById(UpdateById(slots, SlotId, x), SlotId, x) == UpdateById(slots, SlotId, x)
  {
    match FindIndex(slots, SameId(SlotId, x.id))
    case None =>
    case Some(i) =>
      assert UpdateById(slots, SlotId, x) == slots[i := x];
      FindIndexAfterWrite(slots, SameId(SlotId, x.id), i, x);
      assert slots[i := x][i := x] == slots[i := x];
  }

  /**
   * Booking writes back the loaded snapshot: the stored slot's occupancy becomes
   * the snapshot's plus one, whatever was stored; a slot id not stored changes no
   * slot; and two bookings from the same snapshot leave the same slots as one.
   */
  lemma BookingWritesSnapshot(db: Db, me: User, doctor: Doctor, slot: TimeSlot, stamp: string, now: int,
                              me2: User, stamp2: string, now2: int)
    ensures var after := Book(db, me, Some(doctor), Some(slot), stamp, now);
            FindIndex(db.slots, SameId(SlotId, slot.id)).Some? ==>
              var i := FindIndex(db.slots, SameId(SlotId, slot.id)).value;
              after.slots == db.slots[i := Bumped(slot)] && after.slots[i].currentPatients == slot.currentPatients + 1 &&
              after.slots[i].isAvailable == slot.isAvailable
    ensures FindIndex(db.slots, SameId(SlotId, slot.id)).None? ==> Book(db, me, Some(doctor), Some(slot), stamp, now).slots == db.slots
    ensures Book(Book(db, me, Some(doctor), Some(slot), stamp, now), me2, Some(doctor), Some(slot), stamp2, now2).slots ==
            Book(db, me, Some(doctor), Some(slot), stamp, now).slots
  {
    UpdateByIdTwice(db.slots, Bumped(slot));
    match FindIndex(db.slots, SameId(SlotId, slot.id))
    case None =>
    case Some(i) =>
      assert forall j :: 0 <= j < i ==> db.slots[j].id != Bumped(slot).id;
  }

  /** A booking that fills the snapshot to capacity takes the slot off offer. */
  lemma BookingFillsSlot(slot: TimeSlot, f: SearchFilters)
    requires slot.currentPatients + 1 >= slot.maxPatients
    ensures !SlotOpen(f)(Bumped(slot))
  {
  }

  // ---------------------------------------------------------------------------
  // handleCancelAppointment

  /** `{ ...slot, currentPatients: Math.max(0, slot.currentPatients - 1), isAvailable: true }`. */
  function Released(slot: TimeSlot): TimeSlot
  {
    slot.(currentPatients := if slot.currentPatients - 1 > 0 then slot.currentPatients - 1 else 0, isAvailable := true)
  }

  /** The linked slot, released; without a stored slot of that id nothing changes. */
  function ReleaseSlot(slots: seq<TimeSlot>, slotId: string): seq<TimeSlot>
  {
    match Find(slots, SameId(SlotId, slotId))
    case None => slots
    case Some(s) => UpdateById(slots, SlotId, Released(s))
  }

  /** The store after cancelling (the confirmation dialog answered yes). */
  function CancelIn(db: Db, appointmentId: string): Db
  {
    match Find(db.appointments, SameId(AppointmentId, appointmentId))
    case None => db
    case Some(a) => db.(appointments := UpdateById(db.appointments, AppointmentId, a.(status := Cancelled)),
                        slots := ReleaseSlot(db.slots, a.timeSlotId))
  }

  /** `handleCancelAppointment`. */
  method CancelAppointment(store: Store, appointmentId: string)
    requires store.Valid()
    modifies store
    ensures store.Valid()
    ensures store.State() == CancelIn(old(store.State()), appointmentId)
  {
    var appointments := store.Appointments();
    var appointment := Find(appointments, SameId(AppointmentId, appointmentId));
    if appointment.Some? {
      var updatedAppointment := appointment.value.(status := Cancelled);
      store.UpdateAppointment(updatedAppointment);
      var timeSlots := store.TimeSlots();
      var slot := Find(timeSlots, SameId(SlotId, appointment.value.timeSlotId));
      if slot.Some? {
        var updatedSlot := Released(slot.value);
        store.UpdateTimeSlot(updatedSlot);
      }
    }
  }

  /** Releasing a slot is never negative and undoes a booking's bump of a non-negative count (it also reopens the slot). */
  lemma ReleaseUndoesBump(slot: TimeSlot)
    ensures Released(slot).currentPatients >= 0
    ensures slot.currentPatients >= 1 ==> Released(slot).currentPatients == slot.currentPatients - 1
    ensures slot.currentPatients >= 0 ==> Released(Bumped(slot)) == slot.(isAvailable := true)
  {
  }

  lemma ReleaseSlotAt(slots: seq<TimeSlot>, slotId: string)
    ensures FindIndex(slots, SameId(SlotId, slotId)).None? ==> ReleaseSlot(slots, slotId) == slots
    ensures FindIndex(slots, SameId(SlotId, slotId)).Some? ==>
              var j := FindIndex(slots, SameId(SlotId, slotId)).value;
              ReleaseSlot(slots, slotId) == slots[j := Released(slots[j])]
  {
    UpdateFoundSlot(slots, slotId, Released);
  }

  /**
   * Cancelling marks the first appointment with the id cancelled, whatever its
   * status, and releases the first slot with its slot id; a missing appointment
   * changes nothing and a missing slot leaves the slots alone.
   */
  lemma CancelEffects(db: Db, appointmentId: string)
    ensures FindIndex(db.appointments, SameId(AppointmentId, appointmentId)).None? ==> CancelIn(db, appointmentId) == db
    ensures FindIndex(db.appointments, SameId(AppointmentId, appointmentId)).Some? ==>
              var i := FindIndex(db.appointments, SameId(AppointmentId, appointmentId)).value;
              var after := CancelIn(db, appointmentId);
              after.appointments == db.appointments[i := db.appointments[i].(status := Cancelled)] &&
              after.slots == ReleaseSlot(db.slots, db.appointments[i].timeSlotId) &&
              after.(appointments := db.appointments, slots := db.slots) == db
  {
    FindAtIndex(db.appointments, SameId(AppointmentId, appointmentId));
    SetStatusAt(db.appointments, appointmentId, Cancelled);
  }

  /**
   * The cancel button is shown only on scheduled appointments, but the list can be
   * two seconds old: cancelling an appointment the doctor has meanwhile completed
   * makes it cancelled and releases its slot.
   */
  lemma StaleCancelOverwritesCompletion(db: Db, appointmentId: string, i: nat)
    requires FindIndex(db.appointments, SameId(AppointmentId, appointmentId)) == Some(i)
    requires db.appointments[i].status == Completed
    ensures var after := CancelIn(db, appointmentId);
            |after.appointments| == |db.appointments| && after.appointments[i].status == Cancelled &&
            after.appointments[i].(status := Completed) == db.appointments[i] &&
            after.slots == ReleaseSlot(db.slots, db.appointments[i].timeSlotId)
  {
    CancelEffects(db, appointmentId);
  }

  /**
   * No check of the prior status: cancelling the same appointment twice, which an
   * unrefreshed list allows, releases its slot twice.
   */
  lemma DoubleCancelReleasesTwice(db: Db, appointmentId: string, i: nat, j: nat)
    requires FindIndex(db.appointments, SameId(AppointmentId, appointmentId)) == Some(i)
    requires FindIndex(db.slots, SameId(SlotId, db.appointments[i].timeSlotId)) == Some(j)
    ensures CancelIn(CancelIn(db, appointmentId), appointmentId).slots == db.slots[j := Released(Released(db.slots[j]))]
  {
    var a := db.appointments[i];
    var once := CancelIn(db, appointmentId);
    CancelEffects(db, appointmentId);
    assert once.appointments == db.appointments[i := a.(status := Cancelled)];
    FindIndexAfterWrite(db.appointments, SameId(AppointmentId, appointmentId), i, a.(status := Cancelled));
    CancelEffects(once, appointmentId);
    assert once.appointments[i].timeSlotId == a.timeSlotId;
    ReleaseTwice(db.slots, a.timeSlotId, j);
  }

  lemma ReleaseTwice(slots: seq<TimeSlot>, slotId: string, j: nat)
    requires FindIndex(slots, SameId(SlotId, slotId)) == Some(j)
    ensures ReleaseSlot(ReleaseSlot(slots, slotId), slotId) == slots[j := Released(Released(slots[j]))]
  {
    ReleaseSlotAt(slots, slotId);
    var once := slots[j := Released(slots[j])];
    FindIndexAfterWrite(slots, SameId(SlotId, slotId), j, Released(slots[j]));
    ReleaseSlotAt(once, slotId);
    assert once[j := Released(once[j])] == slots[j := Released(Released(slots[j]))];
  }

  // ---------------------------------------------------------------------------
  // fixDoctorIdMismatch

  /** The window the repair uses: five minutes, in milliseconds. */
  const RepairWindow: int := 5 * 60 * 1000

  function Abs(x: int): nat { if x < 0 then -x else x }

  function DoctorWithEmail(email: string): Doctor -> bool
  {
    (d: Doctor) => d.email == email
  }

  /** Created within the window of the doctor and not yet carrying the chosen id. */
  function NearAndWrong(doctorCreatedAt: int, correctDoctorId: string): TimeSlot -> bool
  {
    (s: TimeSlot) => Abs(s.createdAt - doctorCreatedAt) < RepairWindow && s.doctorId != correctDoctorId
  }

  function OrphanedSlot(doctors: seq<Doctor>): TimeSlot -> bool
  {
    (s: TimeSlot) => !HasDoctor(doctors, s.doctorId)
  }

  function RetagSlot(doctorId: string): TimeSlot -> TimeSlot
  {
    (s: TimeSlot) => s.(doctorId := doctorId)
  }

  /** The slots the repair rewrites: the window's, or when that is empty the orphans; none without the doctor. */
  function SlotsToRepair(slots: seq<TimeSlot>, doctors: seq<Doctor>, doctorEmail: string, correctDoctorId: string): seq<TimeSlot>
  {
    match Find(doctors, DoctorWithEmail(doctorEmail))
    case None => []
    case Some(d) =>
      var near := Filter(slots, NearAndWrong(d.createdAt, correctDoctorId));
      if |near| == 0 then Filter(slots, OrphanedSlot(doctors)) else near
  }

  /** The slots after the repair's `forEach` of updates. */
  function RepairSlots(slots: seq<TimeSlot>, doctors: seq<Doctor>, doctorEmail: string, correctDoctorId: string): seq<TimeSlot>
  {
    ApplyUpdates(slots, SlotId, MapSeq(SlotsToRepair(slots, doctors, doctorEmail, correctDoctorId), RetagSlot(correctDoctorId)))
  }

  /**
   * With unique slot ids: no doctor with the email means no change; otherwise
   * the chosen id goes to exactly the slots in the creation window, or, when the
   * window holds none, to exactly the slots whose doctor id matches no Doctor
   * record. Every other slot, and every other field, stays as it was.
   */
  lemma RepairSlotsEffect(slots: seq<TimeSlot>, doctors: seq<Doctor>, doctorEmail: string, correctDoctorId: string)
    requires UniqueIds(slots, SlotId)
    ensures Find(doctors, DoctorWithEmail(doctorEmail)).None? ==>
              RepairSlots(slots, doctors, doctorEmail, correctDoctorId) == slots
    ensures Find(doctors, DoctorWithEmail(doctorEmail)).Some? ==>
              var d := Find(doctors, DoctorWithEmail(doctorEmail)).value;
              RepairSlots(slots, doctors, doctorEmail, correctDoctorId) ==
                if Count(slots, NearAndWrong(d.createdAt, correctDoctorId)) == 0
                then MapWhere(slots, OrphanedSlot(doctors), RetagSlot(correctDoctorId))
                else MapWhere(slots, NearAndWrong(d.createdAt, correctDoctorId), RetagSlot(correctDoctorId))
  {
    match Find(doctors, DoctorWithEmail(doctorEmail))
    case None =>
      assert MapSeq([], RetagSlot(correctDoctorId)) == [];
    case Some(d) =>
      if Count(slots, NearAndWrong(d.createdAt, correctDoctorId)) == 0 {
        ApplyUpdatesRetag(slots, SlotId, OrphanedSlot(doctors), RetagSlot(correctDoctorId));
      } else {
        ApplyUpdatesRetag(slots, SlotId, NearAndWrong(d.createdAt, correctDoctorId), RetagSlot(correctDoctorId));
      }
  }

  /** `fixDoctorIdMismatch`; `fixed` is the count the alert reports. */
  method FixDoctorIdMismatch(store: Store, doctorEmail: string, correctDoctorId: string) returns (fixed: nat)
    requires store.Valid()
    modifies store
    ensures store.Valid()
    ensures store.State() == old(store.State()).(
              slots := RepairSlots(old(store.State()).slots, old(store.State()).doctors, doctorEmail, correctDoctorId))
    ensures fixed == |SlotsToRepair(old(store.State()).slots, old(store.State()).doctors, doctorEmail, correctDoctorId)|
  {
    var allTimeSlots := store.TimeSlots();
    var allDoctors := store.Doctors();
    var doctor := Find(allDoctors, DoctorWithEmail(doctorEmail));
    if doctor.None? {
      assert MapSeq([], RetagSlot(correctDoctorId)) == [];
      return 0;
    }
    var slotsToUpdate := Filter(allTimeSlots, NearAndWrong(doctor.value.createdAt, correctDoctorId));
    if |slotsToUpdate| == 0 {
      var orphanedSlots := Filter(allTimeSlots, OrphanedSlot(allDoctors));
      RetagSlotsEach(store, orphanedSlots, correctDoctorId);
      fixed := |orphanedSlots|;
    } else {
      RetagSlotsEach(store, slotsToUpdate, correctDoctorId);
      fixed := |slotsToUpdate|;
    }
  }

  /** The `forEach` of `updateInStorage` calls, each with the slot re-assigned to `doctorId`. */
  method RetagSlotsEach(store: Store, items: seq<TimeSlot>, doctorId: string)
    requires store.Valid()
    modifies store
    ensures store.Valid()
    ensures store.State() == old(store.State()).(
              slots := ApplyUpdates(old(store.State()).slots, SlotId, MapSeq(items, RetagSlot(doctorId))))
  {
    ghost var s0 := store.State();
    var i := 0;
    while i < |items|
      invariant 0 <= i <= |items| && store.Valid()
      invariant store.State() == s0.(slots := ApplyUpdates(s0.slots, SlotId, MapSeq(items[..i], RetagSlot(doctorId))))
    {
      var updatedSlot := items[i].(doctorId := doctorId);
      ghost var done := MapSeq(items[..i], RetagSlot(doctorId));
      ghost var next := MapSeq(items[..i + 1], RetagSlot(doctorId));
      assert items[..i + 1] == items[..i] + [items[i]];
      MapSeqSnoc(items[..i], items[i], RetagSlot(doctorId));
      assert next == done + [updatedSlot];
      assert next[..|next| - 1] == done;
      store.UpdateTimeSlot(updatedSlot);
      i := i + 1;
    }
    assert items[..i] == items;
  }
}
