# MedTech portal: a verified model of the record store and the dashboards

The portal is a browser-only appointment system. Every screen reads and writes
one key→list record store held in `localStorage`. These are its collections:

- hospitals, doctors, patients, time slots, weekly schedules, appointments,
  users and specializations;
- a current-user slot.

On top of the store sit four groups of operations:

- **Record store.** Get, append, update-first-by-id and remove-by-id, plus
  seeding and reset of the demo data.
- **Doctor dashboard.**
  - Adding a slot.
  - Upserting a weekly schedule and expanding it into four weeks of slots.
  - Setting an appointment's status.
  - Re-assigning orphaned appointments.
- **Patient dashboard.**
  - The doctor search and slot filters.
  - Booking and cancelling an appointment.
  - Re-assigning mis-tagged slots.
- **Accounts.**
  - Login and the administrator quick-fill.
  - Patient signup.
  - The system administrator creating and editing a hospital with its
    administrator account.
  - A hospital administrator creating and editing a doctor with its login, and
    the hospital analytics.

Each Dafny module follows one source file:

| module | file | models |
|---|---|---|
| `Types` | `types.dfy` | the record types of `src/types/index.ts` |
| `Lists` | `lists.dfy` | `find`, `findIndex`, `filter`, `map`, the list step of `updateInStorage` and `removeFromStorage`, and a `forEach` of updates |
| `Text` | `text.dfy` | `indexOf`, `includes`, first-occurrence `replace`, ASCII `toLowerCase`, `text \|\| undefined` |
| `Storage` | `storage.dfy` | `src/utils/storage.ts` |
| `SlotGeneration` | `slot_generation.dfy` | the loops of `generateWeeklySlots` as recursive specification functions |
| `Lookups` | `lookups.dfy` | lookups several dashboards share |
| `DoctorDashboard` | `doctor_dashboard.dfy` | `src/components/dashboard/DoctorDashboard.tsx` |
| `PatientDashboard` | `patient_dashboard.dfy` | `src/components/dashboard/PatientDashboard.tsx` |
| `LoginForm` | `login_form.dfy` | `src/components/auth/LoginForm.tsx` |
| `PatientSignup` | `patient_signup.dfy` | `src/components/auth/PatientSignup.tsx` |
| `AdminDashboard` | `admin_dashboard.dfy` | `src/components/dashboard/AdminDashboard.tsx` |
| `HospitalAdminDashboard` | `hospital_admin_dashboard.dfy` | `src/components/dashboard/HospitalAdminDashboard.tsx` |
| `Consistency` | `consistency.dfy` | how records written by one dashboard are read by another |
| `Wrappers` | `wrappers.dfy` | `Option` |

## How the model works

**The store.** The store is the class `Storage.Store`. It has two fields:

- `data: map<Key, seq<Record>>`, where `Record` is a sum of the eight record
  types;
- `session: Option<User>`.

`Valid()` says that each record sits under the key of its own type. The typed
views (`Hospitals()`, …) select the records of one type, and `State()` is the
whole store as a typed `Db` value.

**Handlers.** Each dashboard handler is a method that changes the store. Its
postcondition ties the new `State()` to a specification function of the old
one. The properties the portal promises are then proved as lemmas about those
functions. The loops of `generateWeeklySlots`, and the `forEach` loops of the
two repair routines, are `while` loops with invariants stated in terms of those
functions.

**Modelling choices.**

- Dates are integer day numbers. Day 0 is Thursday, 1970-01-01, so the
  weekday is `(d + 4) % 7` with Sunday = 0.
- `createdAt` is an integer timestamp.
- The value of `Date.now()` that a handler uses for its ids is a parameter
  `stamp`.
- What `parseInt` makes of the experience, fee and age fields is a parameter
  of type `Option<int>`, with `None` for NaN. Slot capacities are plain
  integers (see "## Left out").

**Behaviour of the code worth knowing.** The model follows the code:

- **Status action.** The doctor's list offers only "Complete" and "Cancel", and
  only on scheduled appointments; on those they end the appointment
  (`DoctorDashboard.OfferedActionEndsScheduled`). The patient's cancel button has
  the same guard. The handlers themselves re-read the store and do not check the
  stored status, and the doctor's list is reloaded only every two seconds. So a
  terminal status can still change through a list that is out of date:
  - the patient cancels, and the doctor's old list still offers "Complete":
    the cancelled appointment becomes completed, and its slot stays released
    (`DoctorDashboard.StaleCompleteOverwritesCancel`);
  - the doctor completes, and the patient cancels from an old list: the
    completed appointment becomes cancelled and its slot is released again
    (`PatientDashboard.StaleCancelOverwritesCompletion`,
    `PatientDashboard.DoubleCancelReleasesTwice`).

  The handler also has a `'confirm'` branch that makes any appointment
  scheduled again (`DoctorDashboard.ConfirmReopens`), but no control passes
  `'confirm'`.
- **Weekday flag.** Slot generation consults the flag named `daysOfWeek[day]`,
  where `day` is the loop index. It does not consult the real weekday of the
  produced date. Both appear in the lemmas (`SlotGeneration.WeekdayOfCandidate`).
- **Future-date guard.** The "future dates only" guard never excludes a
  candidate (`SlotGeneration.FutureGuardAlwaysHolds`).
- **Stale booking snapshot.** Booking writes back the slot snapshot that the
  patient selected, plus one patient, whatever the store now holds
  (`PatientDashboard.BookingWritesSnapshot`).
- **Hospital appointments.** `hospitalAppointments` compares a `hospitalId`
  field that appointments do not have. A hospital administrator with a
  hospital therefore sees no appointments
  (`HospitalAdminDashboard.HospitalAppointmentsEmpty`).
- **Doctor id mismatch.** A doctor's login has id `stamp + "_doctor"`, while
  its Doctor record has id `stamp`. Slots the doctor adds carry the login's id,
  but the patient dashboard looks them up by the record's id. As a result those
  slots are never offered for booking, and booked appointments never reach the
  doctor's own list (`Consistency.LoginSlotsNotBookable`,
  `Consistency.BookingInvisibleToLogin`).

## Model

| member | source | states |
|---|---|---|
| Lists.FindIndex | src/utils/storage.ts:35 | the result is the first position satisfying the predicate, or absent exactly when none does |
| Lists.Find | src/components/dashboard/DoctorDashboard.tsx:112 | the result is present iff some element satisfies the predicate, and is then the first such element |
| Lists.Filter | src/utils/storage.ts:44 | the result keeps exactly the elements satisfying the predicate (with `FilterMembership`, `FilterConcat`) and never grows |
| Lists.FilterMembership | src/utils/storage.ts:44 | an element is in the filtered list iff it is in the list and passes |
| Lists.FilterConcat | src/utils/storage.ts:44 | filtering distributes over concatenation, so it keeps the original order |
| Lists.FilterKeepsUniqueIds | src/components/dashboard/HospitalAdminDashboard.tsx:169 | filtering a list with distinct ids gives a list with distinct ids |
| Lists.UpdateById | src/utils/storage.ts:33-40 | only the first element with the item's id is replaced, later duplicates included; the length is kept; without such an element the list is returned as it was |
| Lists.RemoveById | src/utils/storage.ts:42-46 | exactly the elements with other ids remain |
| Lists.RemoveByIdOrder | src/utils/storage.ts:42-46 | removal distributes over concatenation (the survivors keep their order), keeps a list without the id, empties a list where every element has the id |
| Lists.UpdateAtFirst | src/utils/storage.ts:35-37 | an item carrying the id of the first match at position `i` replaces exactly position `i` |
| Lists.UpdateFound | src/components/dashboard/AdminDashboard.tsx:125-135 | with unique ids, writing back an element found by any predicate replaces exactly that element |
| Lists.ApplyUpdatesRetag | src/components/dashboard/DoctorDashboard.tsx:269-272 | with unique ids, the `forEach` of updates over the filtered, re-assigned elements re-assigns exactly the elements satisfying the filter and keeps every other one |
| Lists.CountDisjointUnion | src/components/dashboard/HospitalAdminDashboard.tsx:158-160 | counts of disjoint predicates add up to the count of their union |
| Text.IndexOf | src/components/dashboard/HospitalAdminDashboard.tsx:71 | `indexOf`: the first position where the pattern occurs, absent iff it occurs nowhere |
| Text.Lower | src/components/dashboard/PatientDashboard.tsx:76 | lower-casing keeps the length and lowers each ASCII capital, leaving other characters alone |
| Text.OptText | src/components/dashboard/AdminDashboard.tsx:70-71 | the stored field is absent iff the text is empty, otherwise the text itself |
| Text.StripAppended | src/components/dashboard/HospitalAdminDashboard.tsx:71 | removing the first occurrence of a pattern from `h + pattern` gives `h` back when `h` does not contain it and the pattern's first character does not recur in it |
| Storage.Store.Get | src/utils/storage.ts:16-20 | a collection never written reads as the empty list |
| Storage.Store.Add | src/utils/storage.ts:27-31 | the collection becomes exactly the old one plus the item at the end; every other key and the session are unchanged |
| Storage.Store.Update | src/utils/storage.ts:33-40 | the collection becomes `UpdateById` of the old one; when no record has the item's id nothing is written |
| Storage.Store.Remove | src/utils/storage.ts:42-46 | the collection becomes `RemoveById` of the old one; nothing else changes |
| Storage.Store.SetCurrentUser | src/utils/storage.ts:90-93 | a following `getCurrentUser` returns exactly the stored user; the collections are unchanged |
| Storage.Store.AddUser | src/utils/storage.ts:79 | the store stays valid and only the users gain the item at the end (likewise for the other typed appends) |
| Storage.Store.UpdateKind | src/utils/storage.ts:33-40 | the store stays valid, the collection becomes `UpdateById` of the old one, and every other collection and the session are unchanged |
| Storage.Store.UpdateAppointment | src/utils/storage.ts:33-40 | the store stays valid and only the appointments become `UpdateById` of the old ones (likewise for the other typed updates) |
| Storage.Store.Initialize | src/utils/storage.ts:107-136 | the new state is `Seeded` of the old one |
| Storage.Store.Reset | src/utils/storage.ts:96-104 | every key is removed in a loop, then the store is seeded: the new state is `AfterReset` |
| Storage.SeedIdempotent | src/utils/storage.ts:107-136 | seeding twice equals seeding once |
| Storage.SeedKeepsUsers | src/utils/storage.ts:124-134 | a non-empty users collection is left as it is, an empty one gets exactly the administrator, and only the two seeded collections can change |
| Storage.ResetState | src/utils/storage.ts:96-136 | after a reset, users are exactly the administrator, specializations the eight fixed entries, every other collection is empty and there is no current user |
| SlotGeneration.OffsetsAreBijective | src/components/dashboard/DoctorDashboard.tsx:188-194 | the candidate offsets `week*7+day` cover 0..27, each exactly once |
| SlotGeneration.FutureGuardAlwaysHolds | src/components/dashboard/DoctorDashboard.tsx:193-197 | the `slotDate >= today` guard holds for every candidate |
| SlotGeneration.WeekdayOfCandidate | src/components/dashboard/DoctorDashboard.tsx:184-194 | the flag consulted for a candidate is that of weekday `day`, while the candidate's real weekday is `today`'s shifted by `day` |
| SlotGeneration.CandidateIdsDistinct | src/components/dashboard/DoctorDashboard.tsx:199 | the ids `stamp_week_day` of different candidates differ |
| SlotGeneration.GeneratedAppendsCandidates | src/components/dashboard/DoctorDashboard.tsx:188-220 | generation keeps every existing slot in place and appends only slots of this doctor, with no patients, available, with the schedule's times and capacity, dated within 28 days of today |
| SlotGeneration.GeneratedBound | src/components/dashboard/DoctorDashboard.tsx:188-192 | one run appends at most four slots per enabled flag, so at most 28 |
| SlotGeneration.GeneratedCovers | src/components/dashboard/DoctorDashboard.tsx:210-220 | afterwards every enabled candidate's (doctor, date, start time) is present |
| SlotGeneration.GeneratedIdempotent | src/components/dashboard/DoctorDashboard.tsx:210-220 | a second run on the same day from a schedule with the same user, start time and day flags adds nothing, whatever its new stamp, clock value, schedule id, end time and capacity |
| SlotGeneration.GeneratedKeepsDistinct | src/components/dashboard/DoctorDashboard.tsx:210-220 | if no two slots shared a (doctor, date, start time) triple before, none do after |
| SlotGeneration.GeneratedAddsNoRepeat | src/components/dashboard/DoctorDashboard.tsx:210-220 | whatever was stored before, including repeats left by adding slots by hand, no appended slot has the triple of any slot before it |
| Lookups.HasDoctorIff | src/components/dashboard/DoctorDashboard.tsx:260-263 | a doctor id is known iff some Doctor record carries it |
| Lookups.SetStatusAt | src/components/dashboard/DoctorDashboard.tsx:110-135 | the first appointment with the id gets the new status whatever its old one, nothing else changes, and an unknown id changes nothing |
| Lookups.HospitalNameIff | src/components/dashboard/DoctorDashboard.tsx:249-252 | the name shown is that of the first hospital with the user's hospital id, or "Hospital" when none matches |
| DoctorDashboard.FiltersSelect | src/components/dashboard/DoctorDashboard.tsx:244-246 | `myTimeSlots`, `myAppointments`, `todayAppointments` hold exactly the records carrying the user's id (and today's date) |
| DoctorDashboard.AddSlot | src/components/dashboard/DoctorDashboard.tsx:89-108 | exactly one slot of this doctor, with no patients and available, is appended; nothing else changes |
| DoctorDashboard.AddedSlotIsMine | src/components/dashboard/DoctorDashboard.tsx:92-104 | the added slot is listed last among the doctor's own slots, with no patients and open |
| DoctorDashboard.GenerateWeeklySlots | src/components/dashboard/DoctorDashboard.tsx:183-225 | the nested loops leave the slots equal to `Generated` of the old ones and change nothing else |
| DoctorDashboard.TrySlot | src/components/dashboard/DoctorDashboard.tsx:190-220 | one loop iteration appends the candidate iff its flag is set and no slot has its triple |
| DoctorDashboard.UpsertOneSchedule | src/components/dashboard/DoctorDashboard.tsx:156-162 | with unique schedule ids: the doctor's first schedule is overwritten in place under its own id, or one is appended; a doctor with at most one schedule has exactly one afterwards; other doctors' schedules are unaffected |
| DoctorDashboard.HandleWeeklySchedule | src/components/dashboard/DoctorDashboard.tsx:137-181 | the schedules become the upsert of the submitted schedule, and the slots are generated from it; nothing else changes |
| DoctorDashboard.ConfirmReopens | src/components/dashboard/DoctorDashboard.tsx:116-119 | the handler's `'confirm'` branch, which no control reaches, makes a cancelled or completed appointment scheduled again |
| DoctorDashboard.OfferedActionEndsScheduled | src/components/dashboard/DoctorDashboard.tsx:716-728 | on a scheduled appointment the two offered actions make the first appointment with the id completed, or cancelled, as the action says, and change no other appointment |
| DoctorDashboard.StaleCompleteOverwritesCancel | src/components/dashboard/DoctorDashboard.tsx:110-135 | "Complete" pressed on an out-of-date list turns a stored cancelled appointment into a completed one, changing nothing else about it and no other appointment |
| DoctorDashboard.HandleAppointmentAction | src/components/dashboard/DoctorDashboard.tsx:110-135 | only the appointments change, by `SetStatus` with the action's status; no slot is touched |
| DoctorDashboard.RepairRetagsOrphans | src/components/dashboard/DoctorDashboard.tsx:255-272 | with unique ids, exactly the appointments whose doctor id matches no Doctor record get the current user's id; all others stay as they were |
| DoctorDashboard.FixAppointmentDoctorIdMismatch | src/components/dashboard/DoctorDashboard.tsx:255-280 | the appointments become the repaired ones, nothing else changes, and the reported count is the number of orphans |
| DoctorDashboard.RetagEach | src/components/dashboard/DoctorDashboard.tsx:269-272 | the `forEach` loop applies the updates in order |
| PatientDashboard.MatchesIff | src/components/dashboard/PatientDashboard.tsx:75-83 | the empty-filter guard is redundant: a field matches iff the lowered filter occurs in the lowered field |
| PatientDashboard.FilteredDoctorsSelect | src/components/dashboard/PatientDashboard.tsx:74-85 | a doctor is listed iff each filter occurs, case-insensitively, in its specialization, name and hospital name; empty filters list everyone |
| PatientDashboard.AvailableSlotsSelect | src/components/dashboard/PatientDashboard.tsx:88-109 | a slot is offered iff available, not full, and on the chosen date if one is set; `doctorSlots` are the offered slots with the selected doctor's id, none without a selection |
| PatientDashboard.BookAppointment | src/components/dashboard/PatientDashboard.tsx:133-169 | the new state is `Book` of the old one |
| PatientDashboard.BookingAppendsOne | src/components/dashboard/PatientDashboard.tsx:134-152 | without both selections nothing changes; otherwise exactly one scheduled appointment of this patient for this slot, with the slot's date and times, is appended and listed last among the patient's appointments |
| PatientDashboard.BookingWritesSnapshot | src/components/dashboard/PatientDashboard.tsx:155-156 | the stored slot becomes the snapshot plus one patient with its availability unchanged; an absent slot id changes no slot; two bookings from one snapshot leave the slots as one does |
| PatientDashboard.BookingFillsSlot | src/components/dashboard/PatientDashboard.tsx:90 | a booking that reaches capacity takes the slot off offer |
| PatientDashboard.CancelAppointment | src/components/dashboard/PatientDashboard.tsx:171-200 | the new state is `CancelIn` of the old one |
| PatientDashboard.ReleaseUndoesBump | src/components/dashboard/PatientDashboard.tsx:184-188 | a released count is never negative, drops by one from a positive count, and undoes a booking's bump while reopening the slot |
| PatientDashboard.CancelEffects | src/components/dashboard/PatientDashboard.tsx:171-190 | the first appointment with the id is cancelled whatever its status and its slot released; a missing appointment changes nothing; only appointments and slots change |
| PatientDashboard.StaleCancelOverwritesCompletion | src/components/dashboard/PatientDashboard.tsx:171-190 | cancelling from an out-of-date list an appointment the doctor has completed makes it cancelled, changing nothing else about it, and releases its slot |
| PatientDashboard.DoubleCancelReleasesTwice | src/components/dashboard/PatientDashboard.tsx:174-190 | the handler does not check the stored status, so a second cancel from an out-of-date list, whose button was shown while the appointment was still scheduled, releases the slot a second time |
| PatientDashboard.ReleaseTwice | src/components/dashboard/PatientDashboard.tsx:181-189 | releasing the same slot twice applies the release twice to the first slot with that id |
| PatientDashboard.RepairSlotsEffect | src/components/dashboard/PatientDashboard.tsx:202-256 | with unique ids: no doctor with the email means no change; otherwise exactly the slots in the five-minute window, or when there are none exactly the orphaned slots, get the chosen id |
| PatientDashboard.FixDoctorIdMismatch | src/components/dashboard/PatientDashboard.tsx:202-256 | the slots become the repaired ones, nothing else changes, and the reported count is the number of slots re-assigned |
| PatientDashboard.RetagSlotsEach | src/components/dashboard/PatientDashboard.tsx:233-236 | the `forEach` loop applies the updates in order |
| LoginForm.FindCredentialsIff | src/components/auth/LoginForm.tsx:26-27 | the lookup succeeds iff some user has both the email and the password, and then yields the first such user |
| LoginForm.Login | src/components/auth/LoginForm.tsx:20-40 | on success the session holds the found user and nothing else changes; on failure the result is the error and the store is unchanged |
| LoginForm.QuickFillLogsInAfterReset | src/components/auth/LoginForm.tsx:42-45 | the quick-fill credentials find the seeded administrator after a reset |
| LoginForm.QuickFillLogsInAfterSeed | src/utils/storage.ts:124-134 | they also find the administrator after seeding an empty users collection |
| LoginForm.ResetDemoData | src/components/auth/LoginForm.tsx:182-184 | the reset button leaves the store in the reset state |
| PatientSignup.HandleSignup | src/components/auth/PatientSignup.tsx:33-76 | the new state is `Signup` of the old one, and the result is the error iff the email was taken |
| PatientSignup.SignupEffect | src/components/auth/PatientSignup.tsx:40-69 | a taken email changes nothing; otherwise one patient user and one Patient with the same id, name, email and phone are appended |
| PatientSignup.SignupKeepsEmailsDistinct | src/components/auth/PatientSignup.tsx:40-68 | pairwise distinct user emails stay pairwise distinct |
| PatientSignup.AgeOfIff | src/components/auth/PatientSignup.tsx:64 | the age is absent iff it did not parse or parsed to 0, otherwise the parsed value |
| AdminDashboard.AddHospital | src/components/dashboard/AdminDashboard.tsx:61-97 | the new state is `AddHospitalTo` of the old one |
| AdminDashboard.AddHospitalPair | src/components/dashboard/AdminDashboard.tsx:64-89 | one hospital and one user are appended; the user administers the new hospital, is named after it plus " Administrator", shares its email and phone, has password "testing" and a first login pending; empty helpline and description are absent |
| AdminDashboard.AddHospitalAdmitsDuplicateEmail | src/components/dashboard/AdminDashboard.tsx:61-89 | no duplicate-email check: an email already in use gets a second account |
| AdminDashboard.UpdateHospital | src/components/dashboard/AdminDashboard.tsx:108-143 | the new state is `UpdateHospitalIn` of the old one |
| AdminDashboard.UpdateHospitalEffect | src/components/dashboard/AdminDashboard.tsx:112-135 | the edit keeps id and creation time and takes every form field; with unique ids only the first user of the hospital is renamed and given the new email and phone, and without one no user changes |
| HospitalAdminDashboard.AddDoctor | src/components/dashboard/HospitalAdminDashboard.tsx:58-98 | the new state is `AddDoctorTo` of the old one |
| HospitalAdminDashboard.AddDoctorPair | src/components/dashboard/HospitalAdminDashboard.tsx:61-90 | one Doctor and one doctor user are appended, sharing email, phone and name, with password "testing" and the administrator's hospital id or ""; the login's id differs from the record's |
| HospitalAdminDashboard.HospitalNameRoundTrip | src/components/dashboard/HospitalAdminDashboard.tsx:71 | stripping " Administrator" from an administrator name recovers a hospital name that does not contain it; an empty name comes back as "Hospital" |
| HospitalAdminDashboard.UpdateDoctor | src/components/dashboard/HospitalAdminDashboard.tsx:109-145 | the new state is `UpdateDoctorIn` of the old one |
| HospitalAdminDashboard.UpdateDoctorEffect | src/components/dashboard/HospitalAdminDashboard.tsx:113-137 | the edit keeps id, hospital, hospital name, first-login flag and creation time and changes only the form fields; with unique ids the first user with the old email gets the new name, email and phone, and without one no user changes |
| HospitalAdminDashboard.HospitalAppointmentsEmpty | src/components/dashboard/HospitalAdminDashboard.tsx:169-170 | an administrator with a hospital sees no appointments, one without sees all; a doctor is listed iff its hospital id is the administrator's |
| HospitalAdminDashboard.ByDoctor | src/components/dashboard/HospitalAdminDashboard.tsx:162-165 | one row per doctor, in order, with that doctor's name and count |
| HospitalAdminDashboard.StatusCountsPartition | src/components/dashboard/HospitalAdminDashboard.tsx:153-161 | completed + pending + cancelled equals the day's total |
| HospitalAdminDashboard.SumCountsIsCount | src/components/dashboard/HospitalAdminDashboard.tsx:162-165 | with distinct doctor ids the rows sum to the number of the day's appointments of those doctors |
| HospitalAdminDashboard.ByDoctorBounded | src/components/dashboard/HospitalAdminDashboard.tsx:162-169 | one row per hospital doctor, in order, and with distinct doctor ids the rows sum to at most the total |
| Consistency.LoginSlotsNotBookable | src/components/dashboard/PatientDashboard.tsx:109 | a slot added under the doctor's login never appears among the bookable slots of the doctor's record |
| Consistency.BookingInvisibleToLogin | src/components/dashboard/DoctorDashboard.tsx:245 | an appointment booked with the doctor's record never appears among its login's appointments |
| Consistency.CreatedDoctorBelongsToHospital | src/components/dashboard/HospitalAdminDashboard.tsx:61-72 | a doctor created by a new hospital's administrator is in that hospital's list and carries its name |
| Consistency.NewAccountsSeeTheirHospital | src/components/dashboard/HospitalAdminDashboard.tsx:173-176 | the new administrator and the doctor logins it creates see the new hospital's name |

## Left out

- Rendering: JSX, CSS and icons.
- React plumbing:
  - state hooks, effects and loading flags;
  - the two-second polling in the doctor dashboard;
  - form resets;
  - `alert`, `console` and `confirm`. The patient's cancel confirmation is taken as answered yes.
- Browser storage: `JSON.parse`/`stringify` and the `typeof window` guard. The store is a map of sequences that always exists.
- The clock:
  - `Date.now()`, `new Date()` and `toISOString` are supplied parameters: an id `stamp`, an integer timestamp `now` and integer day numbers.
  - Every clock read in one handler gives the same value, although the source reads the clock several times.
  - The conversion between a local calendar date and its UTC ISO string is not modelled.
- Text: `toLowerCase` lowers ASCII letters only; Unicode case mapping is not modelled.
- `parseInt` of the experience, fee and age fields is a supplied `Option<int>`.
- Slot capacities (`maxPatients` of the add-slot and weekly-schedule forms) are plain integers. An empty field makes `parseInt` give NaN, which `JSON.stringify` stores as `null`. The model does not hold NaN or `null`; a caller passes 0 instead, which compares the same way in the availability and capacity tests.
- Routing and configuration (`src/app/page.tsx`, `src/components/dashboard/Dashboard.tsx`, `src/app/layout.tsx`, `next.config.ts`): they select screens and hold no logic of the store.
- Several browser tabs writing the store at once: the source has no code for it, so the model is sequential.
- The `try`/`catch` error paths: no modelled operation can throw.
- The doctor dashboard looks for an existing schedule in its own copy of the weekly schedules. The model looks in the store: the copy was loaded from the store and nothing in between changes it.
- The patient's own Patient record (`patientInfo`) and the appointment list the screen keeps are display state, only read for rendering.
- Lists.ApplyUpdates: its contract states only the length. What it does is stated by `ApplyUpdatesRetag`, which holds under unique ids, because with duplicate ids each update only reaches the first record carrying that id.
