/**
 * Expansion of a doctor's weekly template into dated time slots
 * (`generateWeeklySlots`, src/components/dashboard/DoctorDashboard.tsx).
 *
 * For week 0..3 and day 0..6 the candidate date is `today + 7 * week + day`.
 * The flag consulted is the one named `daysOfWeek[day]` (index 0 is Sunday),
 * whatever weekday the candidate date actually falls on. A candidate is
 * appended unless a slot with the same doctor, date and start time is
 * already stored. Dates are day numbers; day 0 is Thursday 1970-01-01.
 */
module SlotGeneration {
  import opened Wrappers
  import opened Types
  import opened Lists

  /** `schedule[daysOfWeek[day]]`, with `daysOfWeek` starting at Sunday. */
  function Flag(s: WeeklySchedule, day: nat): bool
  {
    if day == 0 then s.sunday
    else if day == 1 then s.monday
    else if day == 2 then s.tuesday
    else if day == 3 then s.wednesday
    else if day == 4 then s.thursday
    else if day == 5 then s.friday
    else if day == 6 then s.saturday
    else false
  }

  /** The number of flags among `daysOfWeek[0..n)` that are set. */
  function FlagsBelow(s: WeeklySchedule, n: nat): nat
  {
    if n == 0 then 0 else FlagsBelow(s, n - 1) + (if Flag(s, n - 1) then 1 else 0)
  }

  /** The number of enabled weekdays of a schedule. */
  function EnabledDays(s: WeeklySchedule): nat
  {
    FlagsBelow(s, 7)
  }

  lemma {:induction false} FlagsBelowBound(s: WeeklySchedule, n: nat)
    ensures FlagsBelow(s, n) <= n
  {
    if n > 0 {
      FlagsBelowBound(s, n - 1);
    }
  }

  /** The weekday of a day number, 0 for Sunday (day 0 is a Thursday). */
  function Weekday(date: int): nat
  {
    (date + 4) % 7
  }

  /** The decimal text of a loop counter (always a single digit here). */
  function DigitText(n: nat): (r: string)
    requires n < 10
    ensures |r| == 1 && '0' <= r[0] <= '9'
  {
    [('0' as int + n) as char]
  }

  /** What one run of the generator reads: the current user's id, the submitted schedule, today, the clock. */
  datatype GenContext = GenContext(doctorId: string, schedule: WeeklySchedule, today: int, stamp: string, now: int)

  /** `Date.now().toString() + `_${week}_${day}``. */
  function CandidateId(c: GenContext, week: nat, day: nat): string
    requires week < 10 && day < 10
  {
    c.stamp + "_" + DigitText(week) + "_" + DigitText(day)
  }

  /** The calendar offset of a candidate from today. */
  function Offset(week: nat, day: nat): nat
  {
    week * 7 + day
  }

  /** The slot built for week `week`, day `day`. */
  function Candidate(c: GenContext, week: nat, day: nat): TimeSlot
    requires week < 10 && day < 10
  {
    TimeSlot(CandidateId(c, week, day), c.doctorId, c.today + Offset(week, day),
             c.schedule.startTime, c.schedule.endTime, true, c.schedule.maxPatients, 0, c.now)
  }

  /** The predicate of the `slotExists` lookup. */
  function SlotAt(doctorId: string, date: int, startTime: string): TimeSlot -> bool
  {
    (s: TimeSlot) => s.doctorId == doctorId && s.date == date && s.startTime == startTime
  }

  /** Two slots agree on doctor, date and start time. */
  predicate SameTriple(a: TimeSlot, b: TimeSlot)
  {
    a.doctorId == b.doctorId && a.date == b.date && a.startTime == b.startTime
  }

  /** Some stored slot has `x`'s doctor, date and start time. */
  predicate HasSlot(slots: seq<TimeSlot>, x: TimeSlot)
  {
    Find(slots, SlotAt(x.doctorId, x.date, x.startTime)).Some?
  }

  lemma HasSlotIff(slots: seq<TimeSlot>, x: TimeSlot)
    ensures HasSlot(slots, x) <==> exists j :: 0 <= j < |slots| && SameTriple(slots[j], x)
  {
    var p := SlotAt(x.doctorId, x.date, x.startTime);
    assert forall j :: 0 <= j < |slots| ==> (p(slots[j]) <==> SameTriple(slots[j], x));
  }

  /** The `slotDate >= today` test. */
  predicate IsFuture(c: GenContext, week: nat, day: nat)
  {
    c.today + Offset(week, day) >= c.today
  }

  /** One inner-loop iteration. */
  function Step(slots: seq<TimeSlot>, c: GenContext, week: nat, day: nat): seq<TimeSlot>
    requires week < 4 && day < 7
  {
    if Flag(c.schedule, day) && IsFuture(c, week, day) && !HasSlot(slots, Candidate(c, week, day))
    then slots + [Candidate(c, week, day)]
    else slots
  }

  /** The first `n` days of week `week`. */
  function Days(slots: seq<TimeSlot>, c: GenContext, week: nat, n: nat): seq<TimeSlot>
    requires week < 4 && n <= 7
  {
    if n == 0 then slots else Step(Days(slots, c, week, n - 1), c, week, n - 1)
  }

  /** The first `n` weeks. */
  function Weeks(slots: seq<TimeSlot>, c: GenContext, n: nat): seq<TimeSlot>
    requires n <= 4
  {
    if n == 0 then slots else Days(Weeks(slots, c, n - 1), c, n - 1, 7)
  }

  /** The stored slots after a whole run. */
  function Generated(slots: seq<TimeSlot>, c: GenContext): seq<TimeSlot>
  {
    Weeks(slots, c, 4)
  }

  // ---------------------------------------------------------------------------
  // The calendar quirks

  /** Every candidate offset is in 0..27, and every offset in 0..27 comes from exactly one (week, day). */
  lemma OffsetsAreBijective(week: nat, day: nat, o: nat)
    ensures week < 4 && day < 7 ==> Offset(week, day) < 28
    ensures o < 28 ==> o / 7 < 4 && o % 7 < 7 && Offset(o / 7, o % 7) == o
    ensures day < 7 && Offset(week, day) == o ==> week == o / 7 && day == o % 7
  {
  }

  /** The future-only guard never rejects a candidate. */
  lemma FutureGuardAlwaysHolds(c: GenContext, week: nat, day: nat)
    ensures IsFuture(c, week, day)
  {
  }

  /**
   * The flag consulted for offset `7 * week + day` names weekday `day`, while
   * the date really falls on weekday `(Weekday(today) + day) % 7`; the two agree
   * for every day exactly when today is a Sunday.
   */
  lemma {:induction false} WeekdayOfCandidate(today: int, week: nat, day: nat)
    requires day < 7
    ensures Weekday(today + Offset(week, day)) == (Weekday(today) + day) % 7
    ensures Weekday(today + Offset(week, day)) == day <==> Weekday(today) == 0
  {
    var t := Weekday(today);
    assert today + 4 == 7 * ((today + 4) / 7) + t;
    assert today + Offset(week, day) + 4 == 7 * ((today + 4) / 7 + week) + (t + day);
    ModSevenShift(7 * ((today + 4) / 7 + week), t + day, (today + 4) / 7 + week);
    if t + day < 7 {
      assert (t + day) % 7 == t + day;
    } else {
      assert (t + day) % 7 == t + day - 7;
    }
  }

  lemma ModSevenShift(base: int, r: int, q: int)
    requires base == 7 * q
    ensures (base + r) % 7 == r % 7
  {
  }

  /** Distinct (week, day) pairs give distinct candidate ids. */
  lemma CandidateIdsDistinct(c: GenContext, w1: nat, d1: nat, w2: nat, d2: nat)
    requires w1 < 10 && d1 < 10 && w2 < 10 && d2 < 10
    requires w1 != w2 || d1 != d2
    ensures CandidateId(c, w1, d1) != CandidateId(c, w2, d2)
  {
    var n := |c.stamp|;
    var a := CandidateId(c, w1, d1);
    var b := CandidateId(c, w2, d2);
    assert a[n + 1] == DigitText(w1)[0] && b[n + 1] == DigitText(w2)[0];
    assert a[n + 3] == DigitText(d1)[0] && b[n + 3] == DigitText(d2)[0];
  }

  // ---------------------------------------------------------------------------
  // What a run adds

  /** `x` is the candidate of a flagged (week, day). */
  ghost predicate Generates(c: GenContext, x: TimeSlot)
  {
    exists w: nat, d: nat :: w < 4 && d < 7 && Flag(c.schedule, d) && x == Candidate(c, w, d)
  }

  /** `t` is `s` followed by candidates of flagged days only. */
  ghost predicate Extends(s: seq<TimeSlot>, t: seq<TimeSlot>, c: GenContext)
  {
    |s| <= |t| && t[..|s|] == s && forall i :: |s| <= i < |t| ==> Generates(c, t[i])
  }

  lemma ExtendsTrans(a: seq<TimeSlot>, b: seq<TimeSlot>, d: seq<TimeSlot>, c: GenContext)
    requires Extends(a, b, c) && Extends(b, d, c)
    ensures Extends(a, d, c)
  {
    assert d[..|a|] == d[..|b|][..|a|];
  }

  lemma StepExtends(t: seq<TimeSlot>, c: GenContext, week: nat, day: nat)
    requires week < 4 && day < 7
    ensures Extends(t, Step(t, c, week, day), c)
  {
    var u := Step(t, c, week, day);
    if |u| > |t| {
      assert u[|t|] == Candidate(c, week, day);
      assert Generates(c, u[|t|]);
    }
    assert u[..|t|] == t;
  }

  lemma {:induction false} DaysExtends(t: seq<TimeSlot>, c: GenContext, week: nat, n: nat)
    requires week < 4 && n <= 7
    ensures Extends(t, Days(t, c, week, n), c)
  {
    if n == 0 {
      assert t[..|t|] == t;
    } else {
      DaysExtends(t, c, week, n - 1);
      StepExtends(Days(t, c, week, n - 1), c, week, n - 1);
      ExtendsTrans(t, Days(t, c, week, n - 1), Days(t, c, week, n), c);
    }
  }

  lemma {:induction false} WeeksExtends(s: seq<TimeSlot>, c: GenContext, n: nat)
    requires n <= 4
    ensures Extends(s, Weeks(s, c, n), c)
  {
    if n == 0 {
      assert s[..|s|] == s;
    } else {
      WeeksExtends(s, c, n - 1);
      DaysExtends(Weeks(s, c, n - 1), c, n - 1, 7);
      ExtendsTrans(s, Weeks(s, c, n - 1), Weeks(s, c, n), c);
    }
  }

  /**
   * A run keeps every stored slot in place and appends only candidates of
   * flagged days: each new slot belongs to the current user, has no patients,
   * is available and carries the schedule's times and capacity.
   */
  lemma GeneratedAppendsCandidates(s: seq<TimeSlot>, c: GenContext)
    ensures |s| <= |Generated(s, c)| && Generated(s, c)[..|s|] == s
    ensures forall i :: |s| <= i < |Generated(s, c)| ==> Generates(c, Generated(s, c)[i])
    ensures forall i :: |s| <= i < |Generated(s, c)| ==>
              var x := Generated(s, c)[i];
              x.doctorId == c.doctorId && x.currentPatients == 0 && x.isAvailable &&
              x.startTime == c.schedule.startTime && x.endTime == c.schedule.endTime &&
              x.maxPatients == c.schedule.maxPatients && x.createdAt == c.now &&
              c.today <= x.date < c.today + 28
  {
    WeeksExtends(s, c, 4);
  }

  // ---------------------------------------------------------------------------
  // How many slots a run adds

  lemma {:induction false} DaysBound(t: seq<TimeSlot>, c: GenContext, week: nat, n: nat)
    requires week < 4 && n <= 7
    ensures |Days(t, c, week, n)| <= |t| + FlagsBelow(c.schedule, n)
  {
    if n > 0 {
      DaysBound(t, c, week, n - 1);
    }
  }

  lemma {:induction false} WeeksBound(s: seq<TimeSlot>, c: GenContext, n: nat)
    requires n <= 4
    ensures |Weeks(s, c, n)| <= |s| + n * EnabledDays(c.schedule)
  {
    if n > 0 {
      WeeksBound(s, c, n - 1);
      DaysBound(Weeks(s, c, n - 1), c, n - 1, 7);
      assert (n - 1) * EnabledDays(c.schedule) + EnabledDays(c.schedule) == n * EnabledDays(c.schedule);
    }
  }

  /** One run appends at most four slots per enabled weekday, so at most 28. */
  lemma GeneratedBound(s: seq<TimeSlot>, c: GenContext)
    ensures |Generated(s, c)| <= |s| + 4 * EnabledDays(c.schedule)
    ensures |Generated(s, c)| <= |s| + 28
  {
    WeeksBound(s, c, 4);
    FlagsBelowBound(c.schedule, 7);
  }

  // ---------------------------------------------------------------------------
  // Coverage and idempotence

  lemma HasSlotExtended(t: seq<TimeSlot>, u: seq<TimeSlot>, x: TimeSlot)
    requires |t| <= |u| && u[..|t|] == t
    requires HasSlot(t, x)
    ensures HasSlot(u, x)
  {
    HasSlotIff(t, x);
    HasSlotIff(u, x);
    var j :| 0 <= j < |t| && SameTriple(t[j], x);
    assert u[j] == t[j];
  }

  lemma StepCovers(t: seq<TimeSlot>, c: GenContext, week: nat, day: nat)
    requires week < 4 && day < 7 && Flag(c.schedule, day)
    ensures HasSlot(Step(t, c, week, day), Candidate(c, week, day))
  {
    var x := Candidate(c, week, day);
    if !HasSlot(t, x) {
      HasSlotIff(t + [x], x);
      assert SameTriple((t + [x])[|t|], x);
    }
  }

  /** Days `0..n` of `week` are covered in `Days(t, c, week, n)`. */
  lemma {:induction false} DaysCover(t: seq<TimeSlot>, c: GenContext, week: nat, n: nat)
    requires week < 4 && n <= 7
    ensures forall d :: 0 <= d < n && Flag(c.schedule, d) ==> HasSlot(Days(t, c, week, n), Candidate(c, week, d))
  {
    if n > 0 {
      var prev := Days(t, c, week, n - 1);
      DaysCover(t, c, week, n - 1);
      StepExtends(prev, c, week, n - 1);
      forall d | 0 <= d < n && Flag(c.schedule, d)
        ensures HasSlot(Days(t, c, week, n), Candidate(c, week, d))
      {
        if d == n - 1 {
          StepCovers(prev, c, week, d);
        } else {
          HasSlotExtended(prev, Days(t, c, week, n), Candidate(c, week, d));
        }
      }
    }
  }

  /** Every flagged candidate of weeks `0..n` is covered in `Weeks(s, c, n)`. */
  lemma {:induction false} WeeksCover(s: seq<TimeSlot>, c: GenContext, n: nat)
    requires n <= 4
    ensures forall w, d :: 0 <= w < n && 0 <= d < 7 && Flag(c.schedule, d) ==>
              HasSlot(Weeks(s, c, n), Candidate(c, w, d))
  {
    if n > 0 {
      var prev := Weeks(s, c, n - 1);
      WeeksCover(s, c, n - 1);
      DaysCover(prev, c, n - 1, 7);
      DaysExtends(prev, c, n - 1, 7);
      forall w, d | 0 <= w < n && 0 <= d < 7 && Flag(c.schedule, d)
        ensures HasSlot(Weeks(s, c, n), Candidate(c, w, d))
      {
        if w < n - 1 {
          HasSlotExtended(prev, Weeks(s, c, n), Candidate(c, w, d));
        }
      }
    }
  }

  /** After a run, every flagged day of the four weeks has a slot at the schedule's start time. */
  lemma GeneratedCovers(s: seq<TimeSlot>, c: GenContext)
    ensures forall w, d :: 0 <= w < 4 && 0 <= d < 7 && Flag(c.schedule, d) ==>
              HasSlot(Generated(s, c), Candidate(c, w, d))
  {
    WeeksCover(s, c, 4);
  }

  /**
   * A later run that builds the same triples: same user, same day, same start
   * time and the same seven flags. Its stamp, clock value, schedule id, end time
   * and capacity may all differ, as they do when the form is submitted again.
   */
  predicate SameTemplate(c: GenContext, c2: GenContext)
  {
    c2.doctorId == c.doctorId && c2.today == c.today &&
    c2.schedule.startTime == c.schedule.startTime &&
    forall d: nat :: d < 7 ==> Flag(c2.schedule, d) == Flag(c.schedule, d)
  }

  lemma {:induction false} DaysFixed(t: seq<TimeSlot>, c: GenContext, c2: GenContext, week: nat, n: nat)
    requires week < 4 && n <= 7 && SameTemplate(c, c2)
    requires forall d :: 0 <= d < 7 && Flag(c.schedule, d) ==> HasSlot(t, Candidate(c, week, d))
    ensures Days(t, c2, week, n) == t
  {
    if n > 0 {
      DaysFixed(t, c, c2, week, n - 1);
      assert SameTriple(Candidate(c, week, n - 1), Candidate(c2, week, n - 1));
    }
  }

  lemma {:induction false} WeeksFixed(t: seq<TimeSlot>, c: GenContext, c2: GenContext, n: nat)
    requires n <= 4 && SameTemplate(c, c2)
    requires forall w, d :: 0 <= w < 4 && 0 <= d < 7 && Flag(c.schedule, d) ==> HasSlot(t, Candidate(c, w, d))
    ensures Weeks(t, c2, n) == t
  {
    if n > 0 {
      WeeksFixed(t, c, c2, n - 1);
      DaysFixed(t, c, c2, n - 1, 7);
    }
  }

  /**
   * Submitting the same template again on the same day adds nothing, although
   * the second run has a new stamp, clock value and schedule record.
   */
  lemma GeneratedIdempotent(s: seq<TimeSlot>, c: GenContext, c2: GenContext)
    requires SameTemplate(c, c2)
    ensures Generated(Generated(s, c), c2) == Generated(s, c)
  {
    GeneratedCovers(s, c);
    WeeksFixed(Generated(s, c), c, c2, 4);
  }

  // ---------------------------------------------------------------------------
  // No duplicate (doctor, date, start time) triples

  ghost predicate DistinctTriples(slots: seq<TimeSlot>)
  {
    forall i, j :: 0 <= i < j < |slots| ==> !SameTriple(slots[i], slots[j])
  }

  lemma StepKeepsDistinct(t: seq<TimeSlot>, c: GenContext, week: nat, day: nat)
    requires week < 4 && day < 7 && DistinctTriples(t)
    ensures DistinctTriples(Step(t, c, week, day))
  {
    var x := Candidate(c, week, day);
    HasSlotIff(t, x);
  }

  lemma {:induction false} DaysKeepDistinct(t: seq<TimeSlot>, c: GenContext, week: nat, n: nat)
    requires week < 4 && n <= 7 && DistinctTriples(t)
    ensures DistinctTriples(Days(t, c, week, n))
  {
    if n > 0 {
      DaysKeepDistinct(t, c, week, n - 1);
      StepKeepsDistinct(Days(t, c, week, n - 1), c, week, n - 1);
    }
  }

  lemma {:induction false} WeeksKeepDistinct(s: seq<TimeSlot>, c: GenContext, n: nat)
    requires n <= 4 && DistinctTriples(s)
    ensures DistinctTriples(Weeks(s, c, n))
  {
    if n > 0 {
      WeeksKeepDistinct(s, c, n - 1);
      DaysKeepDistinct(Weeks(s, c, n - 1), c, n - 1, 7);
    }
  }

  /** A run never introduces a second slot for a (doctor, date, start time) already present. */
  lemma GeneratedKeepsDistinct(s: seq<TimeSlot>, c: GenContext)
    requires DistinctTriples(s)
    ensures DistinctTriples(Generated(s, c))
  {
    WeeksKeepDistinct(s, c, 4);
  }

  // ---------------------------------------------------------------------------
  // No appended slot repeats a triple, whatever was stored before

  /** No slot at position `k` or later shares its triple with an earlier slot. */
  ghost predicate NoRepeatFrom(slots: seq<TimeSlot>, k: nat)
  {
    forall i, j :: 0 <= i < j < |slots| && k <= j ==> !SameTriple(slots[i], slots[j])
  }

  lemma StepNoRepeat(t: seq<TimeSlot>, c: GenContext, week: nat, day: nat, k: nat)
    requires week < 4 && day < 7 && NoRepeatFrom(t, k)
    ensures NoRepeatFrom(Step(t, c, week, day), k)
  {
    HasSlotIff(t, Candidate(c, week, day));
  }

  lemma {:induction false} DaysNoRepeat(t: seq<TimeSlot>, c: GenContext, week: nat, n: nat, k: nat)
    requires week < 4 && n <= 7 && NoRepeatFrom(t, k)
    ensures NoRepeatFrom(Days(t, c, week, n), k)
  {
    if n > 0 {
      DaysNoRepeat(t, c, week, n - 1, k);
      StepNoRepeat(Days(t, c, week, n - 1), c, week, n - 1, k);
    }
  }

  lemma {:induction false} WeeksNoRepeat(s: seq<TimeSlot>, c: GenContext, n: nat, k: nat)
    requires n <= 4 && NoRepeatFrom(s, k)
    ensures NoRepeatFrom(Weeks(s, c, n), k)
  {
    if n > 0 {
      WeeksNoRepeat(s, c, n - 1, k);
      DaysNoRepeat(Weeks(s, c, n - 1), c, n - 1, 7, k);
    }
  }

  /**
   * Even when the stored slots already repeat a triple (adding a slot by hand
   * checks nothing), no slot a run appends has the triple of any slot before it.
   */
  lemma GeneratedAddsNoRepeat(s: seq<TimeSlot>, c: GenContext)
    ensures forall i, j :: 0 <= i < j < |Generated(s, c)| && |s| <= j ==>
              !SameTriple(Generated(s, c)[i], Generated(s, c)[j])
  {
    WeeksNoRepeat(s, c, 4, |s|);
  }
}
