/**
 * How the dashboards fit together. The records one dashboard writes are read
 * by another under a different key: a hospital administrator creates a Doctor
 * record with id `stamp` and a doctor login with id `stamp + "_doctor"`, the
 * doctor dashboard tags slots with the login's id, and the patient dashboard
 * looks slots up by the record's id.
 */
module Consistency {
  import opened Wrappers
  import opened Types
  import opened Lists
  import opened Text
  import opened Storage
  import opened AdminDashboard
  import opened HospitalAdminDashboard
  import opened DoctorDashboard
  import opened PatientDashboard
  import opened Lookups

  /**
   * A slot a doctor adds while logged in with the account the hospital
   * administrator created never appears among the bookable slots of that
   * doctor's record.
   */
  lemma LoginSlotsNotBookable(slots: seq<TimeSlot>, admin: User, form: DoctorForm, stamp: string, now: int,
                              slotForm: SlotForm, slotStamp: string, slotNow: int, f: SearchFilters)
    ensures var record := NewDoctor(admin, form, stamp, now);
            var slot := NewSlot(NewDoctorUser(admin, form, stamp, now), slotForm, slotStamp, slotNow);
            DoctorSlots(slots + [slot], f, Some(record)) == DoctorSlots(slots, f, Some(record))
  {
    var record := NewDoctor(admin, form, stamp, now);
    var login := NewDoctorUser(admin, form, stamp, now);
    var slot := NewSlot(login, slotForm, slotStamp, slotNow);
    assert |login.id| == |stamp| + 7;
    assert !SlotOfSelected(Some(record))(slot);
    FilterSnoc(slots, slot, SlotOpen(f));
    if SlotOpen(f)(slot) {
      assert AvailableSlots(slots + [slot], f) == AvailableSlots(slots, f) + [slot];
      FilterSnoc(AvailableSlots(slots, f), slot, SlotOfSelected(Some(record)));
    } else {
      assert AvailableSlots(slots + [slot], f) == AvailableSlots(slots, f);
    }
  }

  /**
   * An appointment a patient books with that doctor's record never appears
   * among the appointments of the doctor's login.
   */
  lemma BookingInvisibleToLogin(db: Db, patient: User, admin: User, form: DoctorForm, stamp: string, now: int,
                                slot: TimeSlot, bookStamp: string, bookNow: int)
    ensures var record := NewDoctor(admin, form, stamp, now);
            var login := NewDoctorUser(admin, form, stamp, now);
            MyAppointments(Book(db, patient, Some(record), Some(slot), bookStamp, bookNow).appointments, login) ==
            MyAppointments(db.appointments, login)
  {
    var record := NewDoctor(admin, form, stamp, now);
    var login := NewDoctorUser(admin, form, stamp, now);
    assert |login.id| == |stamp| + 7;
    FilterSnoc(db.appointments, BookedAppointment(patient, record, slot, bookStamp, bookNow), AppointmentOfDoctor(login.id));
  }

  /**
   * A doctor created by the administrator of a hospital just created belongs to
   * that hospital's doctor list and carries the hospital's name (a name that
   * does not itself contain " Administrator"); that administrator's
   * appointment list is empty whatever is stored.
   */
  lemma CreatedDoctorBelongsToHospital(hospitalForm: HospitalForm, hospitalStamp: string, hospitalNow: int,
                                       doctors: seq<Doctor>, appointments: seq<Appointment>,
                                       form: DoctorForm, stamp: string, now: int)
    requires hospitalForm.name != "" && !Contains(hospitalForm.name, AdministratorSuffix)
    ensures var admin := NewHospitalAdmin(hospitalForm, hospitalStamp, hospitalNow);
            var d := NewDoctor(admin, form, stamp, now);
            d.hospitalId == NewHospital(hospitalForm, hospitalStamp, hospitalNow).id &&
            d.hospitalName == hospitalForm.name &&
            HospitalDoctors(doctors + [d], admin) == HospitalDoctors(doctors, admin) + [d] &&
            HospitalAppointments(appointments, admin) == []
  {
    var admin := NewHospitalAdmin(hospitalForm, hospitalStamp, hospitalNow);
    var d := NewDoctor(admin, form, stamp, now);
    HospitalNameRoundTrip(hospitalForm.name);
    FilterSnoc(doctors, d, InHospitalOf(admin));
    HospitalAppointmentsEmpty(appointments, doctors, admin, d);
  }

  /**
   * When no stored hospital already has the new id, the new hospital's
   * administrator, and every doctor login that administrator creates, see the
   * new hospital's name on their dashboards.
   */
  lemma NewAccountsSeeTheirHospital(db: Db, hospitalForm: HospitalForm, hospitalStamp: string, hospitalNow: int,
                                    form: DoctorForm, stamp: string, now: int)
    requires forall k :: 0 <= k < |db.hospitals| ==> db.hospitals[k].id != hospitalStamp
    ensures var after := AddHospitalTo(db, hospitalForm, hospitalStamp, hospitalNow);
            var admin := NewHospitalAdmin(hospitalForm, hospitalStamp, hospitalNow);
            var login := NewDoctorUser(admin, form, stamp, now);
            HospitalName(after.hospitals, admin.hospitalId) == hospitalForm.name &&
            HospitalName(after.hospitals, login.hospitalId) == hospitalForm.name
  {
    var after := AddHospitalTo(db, hospitalForm, hospitalStamp, hospitalNow);
    var admin := NewHospitalAdmin(hospitalForm, hospitalStamp, hospitalNow);
    var login := NewDoctorUser(admin, form, stamp, now);
    assert login.hospitalId == admin.hospitalId == Some(hospitalStamp);
    HospitalNameIff(after.hospitals, admin.hospitalId);
    assert HospitalOf(admin.hospitalId)(after.hospitals[|db.hospitals|]);
  }
}
