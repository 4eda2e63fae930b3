/**
 * The records the portal keeps in browser storage (src/types/index.ts).
 * Optional TypeScript fields are `Option`s; timestamps (`createdAt`) are integer
 * milliseconds and calendar dates are integer day numbers.
 */
module Types {
  import opened Wrappers

  datatype UserRole = AdminRole | HospitalAdminRole | DoctorRole | PatientRole

  /** The three values an appointment's status can take. */
  datatype Status = Scheduled | Completed | Cancelled

  datatype User = User(
    id: string,
    email: string,
    phone: Option<string>,
    name: string,
    role: UserRole,
    hospitalId: Option<string>,
    password: Option<string>,
    isFirstLogin: Option<bool>,
    createdAt: int)

  datatype Hospital = Hospital(
    id: string,
    name: string,
    email: string,
    phone: string,
    address: string,
    helpline: Option<string>,
    description: Option<string>,
    createdAt: int)

  /** `experience` and `consultationFee` hold what `parseInt` produced; `None` stands for NaN or absent. */
  datatype Doctor = Doctor(
    id: string,
    name: string,
    email: string,
    phone: string,
    specialization: string,
    experience: Option<int>,
    hospitalId: string,
    hospitalName: string,
    qualification: Option<string>,
    consultationFee: Option<int>,
    isFirstLogin: Option<bool>,
    createdAt: int)

  datatype Patient = Patient(
    id: string,
    name: string,
    email: string,
    phone: string,
    age: Option<int>,
    address: Option<string>,
    dateOfBirth: Option<string>,
    gender: Option<string>,
    createdAt: int)

  datatype TimeSlot = TimeSlot(
    id: string,
    doctorId: string,
    date: int,
    startTime: string,
    endTime: string,
    isAvailable: bool,
    maxPatients: int,
    currentPatients: int,
    createdAt: int)

  datatype WeeklySchedule = WeeklySchedule(
    id: string,
    doctorId: string,
    monday: bool,
    tuesday: bool,
    wednesday: bool,
    thursday: bool,
    friday: bool,
    saturday: bool,
    sunday: bool,
    startTime: string,
    endTime: string,
    maxPatients: int,
    createdAt: int)

  datatype Appointment = Appointment(
    id: string,
    patientId: string,
    doctorId: string,
    timeSlotId: string,
    date: int,
    startTime: string,
    endTime: string,
    status: Status,
    notes: Option<string>,
    createdAt: int)

  datatype Specialization = Specialization(
    id: string,
    name: string,
    description: Option<string>)

  // The `id` of each kind of record, as a function value for the generic list operations.
  function UserId(u: User): string { u.id }
  function HospitalId(h: Hospital): string { h.id }
  function DoctorId(d: Doctor): string { d.id }
  function PatientId(p: Patient): string { p.id }
  function SlotId(s: TimeSlot): string { s.id }
  function ScheduleId(s: WeeklySchedule): string { s.id }
  function AppointmentId(a: Appointment): string { a.id }
  function SpecializationId(s: Specialization): string { s.id }
}
