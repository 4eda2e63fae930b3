/**
 * Lookups and single-record rewrites that several dashboards share.
 */
module Lookups {
  import opened Wrappers
  import opened Types
  import opened Lists

  /** Some Doctor record has this id (`allDoctors.find(d => d.id === id)` is not `undefined`). */
  predicate HasDoctor(doctors: seq<Doctor>, id: string)
  {
    Find(doctors, SameId(DoctorId, id)).Some?
  }

  lemma HasDoctorIff(doctors: seq<Doctor>, id: string)
    ensures HasDoctor(doctors, id) <==> exists k :: 0 <= k < |doctors| && doctors[k].id == id
  {
    var p := SameId(DoctorId, id);
    assert forall k :: 0 <= k < |doctors| ==> (p(doctors[k]) <==> doctors[k].id == id);
  }

  function HospitalOf(hospitalId: Option<string>): Hospital -> bool
  {
    (h: Hospital) => Some(h.id) == hospitalId
  }

  /** `getHospitalName`: the name of the user's hospital, or "Hospital" when there is none. */
  function HospitalName(hospitals: seq<Hospital>, hospitalId: Option<string>): string
  {
    match Find(hospitals, HospitalOf(hospitalId))
    case None => "Hospital"
    case Some(h) => h.name
  }

  /**
   * The name shown is that of the first hospital whose id is the user's hospital
   * id; a user without a hospital id, or whose id matches no hospital, sees "Hospital".
   */
  lemma HospitalNameIff(hospitals: seq<Hospital>, hospitalId: Option<string>)
    ensures hospitalId.None? ==> HospitalName(hospitals, hospitalId) == "Hospital"
    ensures FindIndex(hospitals, HospitalOf(hospitalId)).None? ==>
              HospitalName(hospitals, hospitalId) == "Hospital" &&
              forall k :: 0 <= k < |hospitals| ==> Some(hospitals[k].id) != hospitalId
    ensures FindIndex(hospitals, HospitalOf(hospitalId)).Some? ==>
              var i := FindIndex(hospitals, HospitalOf(hospitalId)).value;
              HospitalName(hospitals, hospitalId) == hospitals[i].name && Some(hospitals[i].id) == hospitalId &&
              forall k :: 0 <= k < i ==> Some(hospitals[k].id) != hospitalId
  {
    FindAtIndex(hospitals, HospitalOf(hospitalId));
    var p := HospitalOf(hospitalId);
    assert forall k :: 0 <= k < |hospitals| ==> (p(hospitals[k]) <==> Some(hospitals[k].id) == hospitalId);
  }

  /** The predicate of `users.find(user => user.email === email)`. */
  function UserWithEmail(email: string): User -> bool
  {
    (u: User) => u.email == email
  }

  /** Find the appointment, copy it with the new status, `updateInStorage` the copy. */
  function SetStatus(appointments: seq<Appointment>, appointmentId: string, status: Status): seq<Appointment>
  {
    match Find(appointments, SameId(AppointmentId, appointmentId))
    case None => appointments
    case Some(a) => UpdateById(appointments, AppointmentId, a.(status := status))
  }

  /**
   * The status of the first appointment with the id is overwritten, whatever it
   * was, and nothing else changes; an unknown id changes nothing.
   */
  lemma SetStatusAt(appointments: seq<Appointment>, appointmentId: string, status: Status)
    ensures FindIndex(appointments, SameId(AppointmentId, appointmentId)).None? ==>
              SetStatus(appointments, appointmentId, status) == appointments
    ensures FindIndex(appointments, SameId(AppointmentId, appointmentId)).Some? ==>
              var i := FindIndex(appointments, SameId(AppointmentId, appointmentId)).value;
              SetStatus(appointments, appointmentId, status) == appointments[i := appointments[i].(status := status)]
  {
    FindAtIndex(appointments, SameId(AppointmentId, appointmentId));
    match FindIndex(appointments, SameId(AppointmentId, appointmentId))
    case None =>
    case Some(i) =>
      var y := appointments[i].(status := status);
      assert forall j :: 0 <= j < i ==> appointments[j].id != y.id;
  }

  /** The same for a time slot rewritten by `f`, when `f` keeps the id. */
  lemma UpdateFoundSlot(slots: seq<TimeSlot>, slotId: string, f: TimeSlot -> TimeSlot)
    requires forall s :: f(s).id == s.id
    ensures FindIndex(slots, SameId(SlotId, slotId)).Some? ==>
              var i := FindIndex(slots, SameId(SlotId, slotId)).value;
              Find(slots, SameId(SlotId, slotId)) == Some(slots[i]) &&
              UpdateById(slots, SlotId, f(slots[i])) == slots[i := f(slots[i])]
    ensures FindIndex(slots, SameId(SlotId, slotId)).None? ==> Find(slots, SameId(SlotId, slotId)).None?
  {
    var p := SameId(SlotId, slotId);
    FindAtIndex(slots, p);
    var r := FindIndex(slots, p);
    if r.Some? {
      var i := r.value;
      assert p(slots[i]);
      assert f(slots[i]).id == slots[i].id;
      UpdateAtFirst(slots, SlotId, slotId, i, f(slots[i]));
    }
  }
}
