/**
 * The doctor's dashboard (src/components/dashboard/DoctorDashboard.tsx): adding
 * one slot, submitting the weekly schedule (upsert, then slot generation), the
 * status action on an appointment, the orphaned-appointment repair and the
 * dashboard's filters. `me` is the logged-in doctor *user*; `stamp` is the
 * `Date.now()` text and `now` the `createdAt` time of the handler's run.
 */
module DoctorDashboard {
  import opened Wrappers
  import opened Types
  import opened Lists
  import opened Storage
  import opened SlotGeneration
  import opened Lookups

  // ---------------------------------------------------------------------------
  // Filters

  function SlotOfDoctor(doctorId: string): TimeSlot -> bool
  {
    (s: TimeSlot) => s.doctorId == doctorId
  }

  function AppointmentOfDoctor(doctorId: string): Appointment -> bool
  {
    (a: Appointment) => a.doctorId == doctorId
  }

  function OnDate(date: int): Appointment -> bool
  {
    (a: Appointment) => a.date == date
  }

  /** `myTimeSlots`. */
  function MyTimeSlots(slots: seq<TimeSlot>, me: User): seq<TimeSlot>
  {
    Filter(slots, SlotOfDoctor(me.id))
  }

  /** `myAppointments`. */
  function MyAppointments(appointments: seq<Appointment>, me: User): seq<Appointment>
  {
    Filter(appointments, AppointmentOfDoctor(me.id))
  }

  /** `todayAppointments`: this doctor's appointments dated today. */
  function TodayAppointments(appointments: seq<Appointment>, me: User, today: int): seq<Appointment>
  {
    Filter(MyAppointments(appointments, me), OnDate(today))
  }

  /** The three filters select exactly the slots and appointments carrying the user's id (and today's date). */
  lemma FiltersSelect(slots: seq<TimeSlot>, appointments: seq<Appointment>, me: User, today: int, s: TimeSlot, a: Appointment)
    ensures s in MyTimeSlots(slots, me) <==> s in slots && s.doctorId == me.id
    ensures a in MyAppointments(appointments, me) <==> a in appointments && a.doctorId == me.id
    ensures a in TodayAppointments(appointments, me, today) <==>
              a in appointments && a.doctorId == me.id && a.date == today
  {
    FilterMembership(slots, SlotOfDoctor(me.id), s);
    FilterMembership(appointments, AppointmentOfDoctor(me.id), a);
    FilterMembership(MyAppointments(appointments, me), OnDate(today), a);
  }

  // ---------------------------------------------------------------------------
  // handleAddSlot

  datatype SlotForm = SlotForm(date: int, startTime: string, endTime: string, maxPatients: int)

  /** The slot `handleAddSlot` builds. */
  function NewSlot(me: User, form: SlotForm, stamp: string, now: int): TimeSlot
  {
    TimeSlot(stamp, me.id, form.date, form.startTime, form.endTime, true, form.maxPatients, 0, now)
  }

  /** `handleAddSlot`: one slot appended. */
  method AddSlot(store: Store, me: User, form: SlotForm, stamp: string, now: int)
    requires store.Valid()
    modifies store
    ensures store.Valid()
    ensures store.State() == old(store.State()).(slots := old(store.State()).slots + [NewSlot(me, form, stamp, now)])
  {
    var slot := TimeSlot(stamp, me.id, form.date, form.startTime, form.endTime, true, form.maxPatients, 0, now);
    store.AddTimeSlot(slot);
  }

  /** An added slot shows up, last, among the doctor's own slots, with no patients and open for booking. */
  lemma AddedSlotIsMine(slots: seq<TimeSlot>, me: User, form: SlotForm, stamp: string, now: int)
    ensures MyTimeSlots(slots + [NewSlot(me, form, stamp, now)], me) == MyTimeSlots(slots, me) + [NewSlot(me, form, stamp, now)]
    ensures NewSlot(me, form, stamp, now).currentPatients == 0 && NewSlot(me, form, stamp, now).isAvailable
  {
    FilterSnoc(slots, NewSlot(me, form, stamp, now), SlotOfDoctor(me.id));
  }

  // ---------------------------------------------------------------------------
  // generateWeeklySlots

  /** `generateWeeklySlots(schedule)` run by user `me` on day `today`. */
  method GenerateWeeklySlots(store: Store, me: User, schedule: WeeklySchedule, today: int, stamp: string, now: int)
    requires store.Valid()
    modifies store
    ensures store.Valid()
    ensures store.State() == old(store.State()).(slots := Generated(old(store.State()).slots, GenContext(me.id, schedule, today, stamp, now)))
  {
    ghost var s0 := store.State();
    var c := GenContext(me.id, schedule, today, stamp, now);
    var week := 0;
    while week < 4
      invariant 0 <= week <= 4 && store.Valid()
      invariant store.State() == s0.(slots := Weeks(s0.slots, c, week))
    {
      ghost var w0 := Weeks(s0.slots, c, week);
      var day := 0;
      while day < 7
        invariant 0 <= day <= 7 && store.Valid()
        invariant store.State() == s0.(slots := Days(w0, c, week, day))
      {
        TrySlot(store, me, c, week, day);
        day := day + 1;
      }
      week := week + 1;
    }
  }

  /** The body of the inner loop: one (week, day) candidate. */
  method TrySlot(store: Store, me: User, c: GenContext, week: nat, day: nat)
    requires store.Valid() && week < 4 && day < 7 && c.doctorId == me.id
    modifies store
    ensures store.Valid()
    ensures store.State() == old(store.State()).(slots := Step(old(store.State()).slots, c, week, day))
  {
    if Flag(c.schedule, day) {
      var slotDate := c.today + week * 7 + day;
      if slotDate >= c.today {
        var slot := Candidate(c, week, day);
        var existingSlots := store.TimeSlots();
        var slotExists := Find(existingSlots, SlotAt(me.id, slot.date, slot.startTime));
        if slotExists.None? {
          store.AddTimeSlot(slot);
        }
      }
    }
  }

  // ---------------------------------------------------------------------------
  // handleWeeklySchedule

  datatype ScheduleForm = ScheduleForm(
    monday: bool, tuesday: bool, wednesday: bool, thursday: bool, friday: bool, saturday: bool, sunday: bool,
    startTime: string, endTime: string, maxPatients: int)

  /** The schedule record `handleWeeklySchedule` builds. */
  function SubmittedSchedule(me: User, form: ScheduleForm, stamp: string, now: int): WeeklySchedule
  {
    WeeklySchedule(stamp, me.id, form.monday, form.tuesday, form.wednesday, form.thursday, form.friday,
                   form.saturday, form.sunday, form.startTime, form.endTime, form.maxPatients, now)
  }

  function ScheduleOf(doctorId: string): WeeklySchedule -> bool
  {
    (s: WeeklySchedule) => s.doctorId == doctorId
  }

  /** The existing schedule of the doctor is overwritten under its own id; without one the new schedule is appended. */
  function Upsert(schedules: seq<WeeklySchedule>, x: WeeklySchedule): seq<WeeklySchedule>
  {
    match FindIndex(schedules, ScheduleOf(x.doctorId))
    case None => schedules + [x]
    case Some(i) => UpdateById(schedules, ScheduleId, x.(id := schedules[i].id))
  }

  /**
   * With unique ids, the upsert overwrites the doctor's first schedule in place
   * (keeping its id) or appends one; a doctor with at most one schedule has
   * exactly one afterwards, and other doctors' schedules are untouched.
   */
  lemma UpsertOneSchedule(schedules: seq<WeeklySchedule>, x: WeeklySchedule)
    requires UniqueIds(schedules, ScheduleId)
    ensures FindIndex(schedules, ScheduleOf(x.doctorId)).None? ==> Upsert(schedules, x) == schedules + [x]
    ensures FindIndex(schedules, ScheduleOf(x.doctorId)).Some? ==>
              var i := FindIndex(schedules, ScheduleOf(x.doctorId)).value;
              Upsert(schedules, x) == schedules[i := x.(id := schedules[i].id)]
    ensures Count(schedules, ScheduleOf(x.doctorId)) <= 1 ==> Count(Upsert(schedules, x), ScheduleOf(x.doctorId)) == 1
    ensures forall d :: d != x.doctorId ==> Count(Upsert(schedules, x), ScheduleOf(d)) == Count(schedules, ScheduleOf(d))
  {
    var p := ScheduleOf(x.doctorId);
    match FindIndex(schedules, p)
    case None =>
      FilterSnoc(schedules, x, p);
      FilterEmpty(schedules, p);
      forall d | d != x.doctorId
        ensures Count(Upsert(schedules, x), ScheduleOf(d)) == Count(schedules, ScheduleOf(d))
      {
        FilterSnoc(schedules, x, ScheduleOf(d));
      }
    case Some(i) =>
      var y := x.(id := schedules[i].id);
      assert forall j :: 0 <= j < i ==> schedules[j].id != y.id;
      assert UpdateById(schedules, ScheduleId, y) == schedules[i := y];
      CountReplace(schedules, i, y, p);
      forall d | d != x.doctorId
        ensures Count(Upsert(schedules, x), ScheduleOf(d)) == Count(schedules, ScheduleOf(d))
      {
        CountReplace(schedules, i, y, ScheduleOf(d));
      }
  }

  /** `handleWeeklySchedule`: upsert the schedule, then generate four weeks of slots from it. */
  method HandleWeeklySchedule(store: Store, me: User, form: ScheduleForm, today: int, stamp: string, now: int)
    requires store.Valid()
    modifies store
    ensures store.Valid()
    ensures store.State() == old(store.State()).(
              schedules := Upsert(old(store.State()).schedules, SubmittedSchedule(me, form, stamp, now)),
              slots := Generated(old(store.State()).slots, GenContext(me.id, SubmittedSchedule(me, form, stamp, now), today, stamp, now)))
  {
    var schedule := SubmittedSchedule(me, form, stamp, now);
    var weeklySchedules := store.WeeklySchedules();
    var existingSchedule := Find(weeklySchedules, ScheduleOf(me.id));
    FindAtIndex(weeklySchedules, ScheduleOf(me.id));
    if existingSchedule.Some? {
      store.UpdateWeeklySchedule(schedule.(id := existingSchedule.value.id));
    } else {
      store.AddWeeklySchedule(schedule);
    }
    GenerateWeeklySlots(store, me, schedule, today, stamp, now);
  }

  // ---------------------------------------------------------------------------
  // handleAppointmentAction

  datatype Action = Confirm | Complete | Cancel

  function NewStatus(action: Action): Status
  {
    match action
    case Confirm => Scheduled
    case Complete => Completed
    case Cancel => Cancelled
  }

  /** No transition is refused: confirming a cancelled or completed appointment makes it scheduled again. */
  lemma ConfirmReopens(a: Appointment)
    requires a.status != Scheduled
    ensures SetStatus([a], a.id, NewStatus(Confirm)) == [a.(status := Scheduled)]
  {
    assert SameId(AppointmentId, a.id)([a][0]);
    SetStatusAt([a], a.id, NewStatus(Confirm));
  }

  /** The actions the appointment list offers: "Complete" and "Cancel"; no control passes `Confirm`. */
  predicate Offered(action: Action)
  {
    action != Confirm
  }

  /**
   * On a scheduled appointment the offered actions end it: the first appointment
   * with the id becomes completed or cancelled, as the action says, and no other
   * appointment changes.
   */
  lemma OfferedActionEndsScheduled(appointments: seq<Appointment>, appointmentId: string, action: Action, i: nat)
    requires Offered(action)
    requires FindIndex(appointments, SameId(AppointmentId, appointmentId)) == Some(i)
    requires appointments[i].status == Scheduled
    ensures var r := SetStatus(appointments, appointmentId, NewStatus(action));
            r == appointments[i := appointments[i].(status := NewStatus(action))] &&
            (r[i].status == Completed <==> action == Complete) &&
            (r[i].status == Cancelled <==> action == Cancel)
  {
    SetStatusAt(appointments, appointmentId, NewStatus(action));
  }

  /**
   * The list is reloaded every two seconds, so its "Complete" button can still be
   * shown after the patient has cancelled: the stored cancelled appointment then
   * becomes completed, and its slot, already released, is left as it is.
   */
  lemma StaleCompleteOverwritesCancel(appointments: seq<Appointment>, appointmentId: string, i: nat)
    requires FindIndex(appointments, SameId(AppointmentId, appointmentId)) == Some(i)
    requires appointments[i].status == Cancelled
    ensures var r := SetStatus(appointments, appointmentId, NewStatus(Complete));
            |r| == |appointments| && r[i].status == Completed &&
            r[i].(status := Cancelled) == appointments[i] &&
            forall j :: 0 <= j < |r| && j != i ==> r[j] == appointments[j]
  {
    SetStatusAt(appointments, appointmentId, NewStatus(Complete));
  }

  /** `handleAppointmentAction`: only the appointments change; no slot is released or touched. */
  method HandleAppointmentAction(store: Store, appointmentId: string, action: Action)
    requires store.Valid()
    modifies store
    ensures store.Valid()
    ensures store.State() == old(store.State()).(appointments := SetStatus(old(store.State()).appointments, appointmentId, NewStatus(action)))
  {
    var appointments := store.Appointments();
    var appointment := Find(appointments, SameId(AppointmentId, appointmentId));
    if appointment.Some? {
      var newStatus := NewStatus(action);
      var updatedAppointment := appointment.value.(status := newStatus);
      store.UpdateAppointment(updatedAppointment);
    }
  }

  // ---------------------------------------------------------------------------
  // fixAppointmentDoctorIdMismatch

  function Orphaned(doctors: seq<Doctor>): Appointment -> bool
  {
    (a: Appointment) => !HasDoctor(doctors, a.doctorId)
  }

  function Retag(doctorId: string): Appointment -> Appointment
  {
    (a: Appointment) => a.(doctorId := doctorId)
  }

  /** The appointments after the `forEach` of updates over the orphaned ones. */
  function RepairAppointments(appointments: seq<Appointment>, doctors: seq<Doctor>, doctorId: string): seq<Appointment>
  {
    ApplyUpdates(appointments, AppointmentId, MapSeq(Filter(appointments, Orphaned(doctors)), Retag(doctorId)))
  }

  /**
   * With unique appointment ids, the repair gives the current user's id to exactly
   * the appointments whose doctor id matches no Doctor record (see `HasDoctorIff`);
   * every other appointment, and every other field, stays as it was.
   */
  lemma RepairRetagsOrphans(appointments: seq<Appointment>, doctors: seq<Doctor>, doctorId: string)
    requires UniqueIds(appointments, AppointmentId)
    ensures |RepairAppointments(appointments, doctors, doctorId)| == |appointments|
    ensures forall i :: 0 <= i < |appointments| ==>
              RepairAppointments(appointments, doctors, doctorId)[i] ==
                if HasDoctor(doctors, appointments[i].doctorId) then appointments[i]
                else appointments[i].(doctorId := doctorId)
  {
    ApplyUpdatesRetag(appointments, AppointmentId, Orphaned(doctors), Retag(doctorId));
  }

  /** `fixAppointmentDoctorIdMismatch`; `fixed` is the count the alert reports. */
  method FixAppointmentDoctorIdMismatch(store: Store, me: User) returns (fixed: nat)
    requires store.Valid()
    modifies store
    ensures store.Valid()
    ensures store.State() == old(store.State()).(
              appointments := RepairAppointments(old(store.State()).appointments, old(store.State()).doctors, me.id))
    ensures fixed == Count(old(store.State()).appointments, Orphaned(old(store.State()).doctors))
  {
    var allAppointments := store.Appointments();
    var allDoctors := store.Doctors();
    var orphanedAppointments := Filter(allAppointments, Orphaned(allDoctors));
    fixed := |orphanedAppointments|;
    if |orphanedAppointments| > 0 {
      RetagEach(store, orphanedAppointments, me.id);
    } else {
      assert MapSeq(orphanedAppointments, Retag(me.id)) == [];
    }
  }

  /** The `forEach` of `updateInStorage` calls, each with the appointment re-assigned to `doctorId`. */
  method RetagEach(store: Store, items: seq<Appointment>, doctorId: string)
    requires store.Valid()
    modifies store
    ensures store.Valid()
    ensures store.State() == old(store.State()).(
              appointments := ApplyUpdates(old(store.State()).appointments, AppointmentId, MapSeq(items, Retag(doctorId))))
  {
    ghost var s0 := store.State();
    var i := 0;
    while i < |items|
      invariant 0 <= i <= |items| && store.Valid()
      invariant store.State() == s0.(appointments := ApplyUpdates(s0.appointments, AppointmentId, MapSeq(items[..i], Retag(doctorId))))
    {
      var updatedAppointment := items[i].(doctorId := doctorId);
      ghost var done := MapSeq(items[..i], Retag(doctorId));
      ghost var next := MapSeq(items[..i + 1], Retag(doctorId));
      assert items[..i + 1] == items[..i] + [items[i]];
      MapSeqSnoc(items[..i], items[i], Retag(doctorId));
      assert next == done + [updatedAppointment];
      assert next[..|next| - 1] == done;
      store.UpdateAppointment(updatedAppointment);
      i := i + 1;
    }
    assert items[..i] == items;
  }
}
