/**
 * The appointment scheduling engine: the free-slot walk over a doctor's
 * working hours, the fail-closed conflict test, booking with its calendar
 * event and reminder, and the lifecycle moves (reschedule, cancel, complete)
 * that are allowed only from the scheduled state.
 *
 * Instants are integer minutes from an epoch that is a Monday at 00:00, so the
 * weekday of an instant is its day number modulo 7 (0 = Monday).
 */
module Appointments {
  import opened Wrappers
  import opened Values
  import opened Text
  import opened Utils
  import opened Models
  import opened Database
  import opened Calendar
  import opened Reminder

  const MinutesPerDay: int := 1440
  /** A free slot is followed by the next candidate this many minutes later. */
  const SlotStep: int := 15
  /** How far before and after a request the conflict test looks for appointments. */
  const ConflictPadding: int := 30
  const ReminderWarningKey: string := "reminder_warning"
  const ReminderWarning: string := "WhatsApp reminder failed"
  /** How many times booking calls the reminder function. */
  const ReminderCalls: nat := 2

  // ---------------------------------------------------------------------------
  // Overlap
  // ---------------------------------------------------------------------------

  /** The half-open interval [s, e) strictly overlaps the appointment; touching ends do not count. */
  predicate Overlaps(a: Appointment, s: int, e: int)
  {
    s < a.End() && e > a.scheduledTime
  }

  /** The first appointment, in list order, that overlaps [s, e). */
  function FirstConflict(appts: seq<Appointment>, s: int, e: int): (r: Option<Appointment>)
    ensures r.Some? ==> r.value in appts && Overlaps(r.value, s, e)
    ensures r.None? <==> forall i :: 0 <= i < |appts| ==> !Overlaps(appts[i], s, e)
  {
    if appts == [] then None
    else if Overlaps(appts[0], s, e) then Some(appts[0])
    else FirstConflict(appts[1..], s, e)
  }

  lemma {:induction false} FirstConflictAt(appts: seq<Appointment>, s: int, e: int, k: nat)
    requires k < |appts| && Overlaps(appts[k], s, e)
    requires forall j :: 0 <= j < k ==> !Overlaps(appts[j], s, e)
    ensures FirstConflict(appts, s, e) == Some(appts[k])
  {
    if k > 0 {
      FirstConflictAt(appts[1..], s, e, k - 1);
    }
  }

  // ---------------------------------------------------------------------------
  // The slot walk, as functions
  // ---------------------------------------------------------------------------

  datatype Slot = Slot(start: int, end: int, durationMinutes: int)

  /**
   * The free slots of one window [cur, end) for a request of `d` minutes: a
   * free candidate is taken and the walk moves on 15 minutes; a candidate that
   * collides jumps to the end of the first appointment it collides with.
   */
  function WindowSlots(appts: seq<Appointment>, cur: int, end: int, d: int): seq<Slot>
    decreases end - d - cur
  {
    if cur + d > end then []
    else match FirstConflict(appts, cur, cur + d)
      case Some(a) => WindowSlots(appts, a.End(), end, d)
      case None => [Slot(cur, cur + d, d)] + WindowSlots(appts, cur + SlotStep, end, d)
  }

  /**
   * What the walk of a window promises: each slot starts no earlier than the
   * window, ends by its end, lasts `d` minutes, overlaps none of `appts`, and
   * starts at least one step after the slot before it.
   */
  predicate WellPlaced(r: seq<Slot>, appts: seq<Appointment>, cur: int, end: int, d: int)
  {
    && (forall i :: 0 <= i < |r| ==>
         cur <= r[i].start && r[i].start + d <= end && r[i].end == r[i].start + d && r[i].durationMinutes == d)
    && (forall i, j :: 0 <= i < |r| && 0 <= j < |appts| ==> !Overlaps(appts[j], r[i].start, r[i].end))
    && (forall i, j :: 0 <= i < j < |r| ==> r[i].start + SlotStep <= r[j].start)
  }

  /** The walk of a window only offers well-placed slots. */
  lemma {:induction false} WindowSlotsWellPlaced(appts: seq<Appointment>, cur: int, end: int, d: int)
    decreases end - d - cur
    ensures WellPlaced(WindowSlots(appts, cur, end, d), appts, cur, end, d)
  {
    if cur + d <= end {
      match FirstConflict(appts, cur, cur + d)
      case Some(a) =>
        WindowSlotsWellPlaced(appts, a.End(), end, d);
        WellPlacedLater(WindowSlots(appts, a.End(), end, d), appts, cur, a.End(), end, d);
      case None =>
        WindowSlotsWellPlaced(appts, cur + SlotStep, end, d);
        WellPlacedCons(WindowSlots(appts, cur + SlotStep, end, d), appts, cur, end, d);
    }
  }

  /** Slots well placed from a later start are well placed from an earlier one. */
  lemma WellPlacedLater(r: seq<Slot>, appts: seq<Appointment>, cur: int, later: int, end: int, d: int)
    requires cur <= later && WellPlaced(r, appts, later, end, d)
    ensures WellPlaced(r, appts, cur, end, d)
  {
  }

  /** A free slot at `cur` followed by slots well placed from a step later are well placed from `cur`. */
  lemma WellPlacedCons(rest: seq<Slot>, appts: seq<Appointment>, cur: int, end: int, d: int)
    requires cur + d <= end && WellPlaced(rest, appts, cur + SlotStep, end, d)
    requires forall j :: 0 <= j < |appts| ==> !Overlaps(appts[j], cur, cur + d)
    ensures WellPlaced([Slot(cur, cur + d, d)] + rest, appts, cur, end, d)
  {
    var r := [Slot(cur, cur + d, d)] + rest;
    assert forall i :: 0 < i < |r| ==> r[i] == rest[i - 1];
  }

  /** A free candidate is taken, and the walk goes on a step later. */
  lemma WindowSlotsTake(prefix: seq<Slot>, appts: seq<Appointment>, cur: int, end: int, d: int)
    requires cur + d <= end && FirstConflict(appts, cur, cur + d).None?
    ensures (prefix + [Slot(cur, cur + d, d)]) + WindowSlots(appts, cur + SlotStep, end, d)
         == prefix + WindowSlots(appts, cur, end, d)
  {
    var rest := WindowSlots(appts, cur + SlotStep, end, d);
    assert WindowSlots(appts, cur, end, d) == [Slot(cur, cur + d, d)] + rest;
  }

  /** A colliding candidate is skipped to the end of the first appointment it collides with. */
  lemma WindowSlotsJump(appts: seq<Appointment>, cur: int, end: int, d: int, a: Appointment)
    requires cur + d <= end && FirstConflict(appts, cur, cur + d) == Some(a)
    ensures WindowSlots(appts, cur, end, d) == WindowSlots(appts, a.End(), end, d)
  {
  }

  /** The slots of every window of the day, window after window. */
  function DaySlots(windows: seq<TimeRange>, dayStart: int, appts: seq<Appointment>, d: int): (r: seq<Slot>)
    ensures forall i :: 0 <= i < |r| ==> r[i].end == r[i].start + d && r[i].durationMinutes == d
    ensures forall i, j :: 0 <= i < |r| && 0 <= j < |appts| ==> !Overlaps(appts[j], r[i].start, r[i].end)
  {
    if windows == [] then []
    else
      var w := windows[|windows| - 1];
      WindowSlotsWellPlaced(appts, dayStart + w.start, dayStart + w.end, d);
      DaySlots(windows[..|windows| - 1], dayStart, appts, d)
        + WindowSlots(appts, dayStart + w.start, dayStart + w.end, d)
  }

  /** Every slot of the day lies inside one of the configured windows. */
  lemma {:induction false} DaySlotInWindow(windows: seq<TimeRange>, dayStart: int, appts: seq<Appointment>, d: int, k: nat)
    returns (w: nat)
    requires k < |DaySlots(windows, dayStart, appts, d)|
    ensures w < |windows|
    ensures var s := DaySlots(windows, dayStart, appts, d)[k];
      dayStart + windows[w].start <= s.start && s.start + d <= dayStart + windows[w].end
  {
    var init := windows[..|windows| - 1];
    var last := windows[|windows| - 1];
    var a := DaySlots(init, dayStart, appts, d);
    var b := WindowSlots(appts, dayStart + last.start, dayStart + last.end, d);
    if k < |a| {
      w := DaySlotInWindow(init, dayStart, appts, d, k);
      assert windows[w] == init[w];
    } else {
      w := |windows| - 1;
      WindowSlotsWellPlaced(appts, dayStart + last.start, dayStart + last.end, d);
      assert DaySlots(windows, dayStart, appts, d)[k] == b[k - |a|];
    }
  }

  function DayNumber(t: int): int
  {
    t / MinutesPerDay
  }

  /** The weekday of an instant, 0 for Monday. */
  function Weekday(t: int): (w: nat)
    ensures w < 7
  {
    DayNumber(t) % 7
  }

  /** Midnight at the start of the instant's day. */
  function DayStart(t: int): (r: int)
    ensures r <= t < r + MinutesPerDay
  {
    DayNumber(t) * MinutesPerDay
  }

  /**
   * The slots offered for a doctor on the day of `date`: none for an unknown
   * doctor, a day without windows, or a failed appointment query.
   */
  function SlotsFor(doctor: Option<Doctor>, fetched: Option<seq<Appointment>>, date: int, d: int): (r: seq<Slot>)
    ensures doctor.None? ==> r == []
    ensures doctor.Some? && WindowsOn(doctor.value, Weekday(date)) == [] ==> r == []
    ensures fetched.None? ==> r == []
    ensures forall i :: 0 <= i < |r| ==> r[i].end == r[i].start + d && r[i].durationMinutes == d
    ensures fetched.Some? ==>
      forall i, j :: 0 <= i < |r| && 0 <= j < |fetched.value| ==> !Overlaps(fetched.value[j], r[i].start, r[i].end)
  {
    if doctor.None? then []
    else
      var windows := WindowsOn(doctor.value, Weekday(date));
      if windows == [] || fetched.None? then []
      else DaySlots(windows, DayStart(date), fetched.value, d)
  }

  /** Every offered slot lies inside one of the doctor's windows for that weekday. */
  lemma SlotsForInWindow(doctor: Option<Doctor>, fetched: Option<seq<Appointment>>, date: int, d: int, k: nat)
    returns (w: nat)
    requires k < |SlotsFor(doctor, fetched, date, d)|
    ensures doctor.Some? && w < |WindowsOn(doctor.value, Weekday(date))|
    ensures var window := WindowsOn(doctor.value, Weekday(date))[w];
      var s := SlotsFor(doctor, fetched, date, d)[k];
      DayStart(date) + window.start <= s.start && s.start + d <= DayStart(date) + window.end
  {
    w := DaySlotInWindow(WindowsOn(doctor.value, Weekday(date)), DayStart(date), fetched.value, d, k);
  }

  /** A doctor who works Monday from 09:00 to 12:00. */
  const MondayMorningDoctor: Doctor := Doctor("d1", "Dr. Ada", None, map["monday" := [TimeRange(540, 720)]], None)

  /** With no appointments, the first 30-minute slot offered on a Monday starts at 09:00. */
  lemma FirstFreeSlotOpensTheDay()
    ensures var slots := SlotsFor(Some(MondayMorningDoctor), Some([]), 0, 30);
      |slots| > 0 && slots[0] == Slot(540, 570, 30)
  {
    var windows := WindowsOn(MondayMorningDoctor, Weekday(0));
    assert windows == [TimeRange(540, 720)];
    assert FirstConflict([], 540, 570).None?;
    assert DaySlots(windows, 0, [], 30) == DaySlots([], 0, [], 30) + WindowSlots([], 540, 720, 30);
  }

  /** An appointment at 09:00-09:30 blocks a request at 09:15, and the first slot offered starts at 09:30. */
  lemma BookedSlotIsSkipped(x: Appointment)
    requires x.doctorId == "d1" && x.scheduledTime == 540 && x.durationMinutes == 30
    ensures ConflictIn(false, [x], 555, 30)
    ensures var slots := SlotsFor(Some(MondayMorningDoctor), Some([x]), 0, 30);
      |slots| > 0 && slots[0] == Slot(570, 600, 30)
  {
    assert Overlaps([x][0], 555, 585);
    var windows := WindowsOn(MondayMorningDoctor, Weekday(0));
    assert windows == [TimeRange(540, 720)];
    FirstConflictAt([x], 540, 570, 0);
    assert !Overlaps(x, 570, 600);
    assert FirstConflict([x], 570, 600).None?;
    assert WindowSlots([x], 540, 720, 30) == WindowSlots([x], 570, 720, 30);
    assert DaySlots(windows, 0, [x], 30) == DaySlots([], 0, [x], 30) + WindowSlots([x], 540, 720, 30);
  }

  // ---------------------------------------------------------------------------
  // The conflict test, as functions
  // ---------------------------------------------------------------------------

  /** The outcome of the conflict test given what the query returned (`fault` when it raised). */
  predicate ConflictIn(fault: bool, fetched: seq<Appointment>, t: int, d: int)
  {
    fault || exists i :: 0 <= i < |fetched| && Overlaps(fetched[i], t, t + d)
  }

  /** What the conflict test queries for a request: the doctor's appointments starting within 30 minutes of it. */
  function ConflictQuery(appts: map<nat, Appointment>, bound: nat, req: AppointmentCreate, exclude: Option<nat>): seq<Appointment>
  {
    DoctorAppointmentsIn(appts, bound, req.doctorId, req.scheduledTime - ConflictPadding,
                         req.scheduledTime + req.durationMinutes + ConflictPadding, exclude)
  }

  predicate WouldConflict(db: Store, req: AppointmentCreate, exclude: Option<nat>)
    reads db
  {
    ConflictIn(db.queryFault, ConflictQuery(db.appointments, db.nextAppointmentId, req, exclude),
               req.scheduledTime, req.durationMinutes)
  }

  /**
   * When the test finds no conflict, no stored appointment of the doctor that
   * lasts at most 30 minutes overlaps the request. Longer appointments that
   * started more than 30 minutes earlier are outside the query's range.
   */
  lemma NoConflictIsFree(appts: map<nat, Appointment>, bound: nat, req: AppointmentCreate, exclude: Option<nat>)
    requires IdsMatchKeys(appts) && forall k :: k in appts ==> k < bound
    requires !ConflictIn(false, ConflictQuery(appts, bound, req, exclude), req.scheduledTime, req.durationMinutes)
    ensures forall k :: (k in appts && appts[k].doctorId == req.doctorId && exclude != Some(k)
      && appts[k].durationMinutes <= ConflictPadding
      ==> !Overlaps(appts[k], req.scheduledTime, req.scheduledTime + req.durationMinutes))
  {
    var q := ConflictQuery(appts, bound, req, exclude);
    var t, d := req.scheduledTime, req.durationMinutes;
    forall k | k in appts && appts[k].doctorId == req.doctorId && exclude != Some(k)
      && appts[k].durationMinutes <= ConflictPadding
      ensures !Overlaps(appts[k], t, t + d)
    {
      var a := appts[k];
      if t - ConflictPadding <= a.scheduledTime <= t + d + ConflictPadding {
        DoctorAppointmentsInMembers(appts, bound, req.doctorId, t - ConflictPadding, t + d + ConflictPadding, exclude, a);
        var i :| 0 <= i < |q| && q[i] == a;
      }
    }
  }

  /** A conflict reported while the query works names a real stored appointment of the doctor that overlaps. */
  lemma ConflictIsReal(appts: map<nat, Appointment>, bound: nat, req: AppointmentCreate, exclude: Option<nat>)
    returns (k: nat)
    requires IdsMatchKeys(appts)
    requires ConflictIn(false, ConflictQuery(appts, bound, req, exclude), req.scheduledTime, req.durationMinutes)
    ensures k in appts && appts[k].doctorId == req.doctorId && exclude != Some(k)
    ensures Overlaps(appts[k], req.scheduledTime, req.scheduledTime + req.durationMinutes)
  {
    var q := ConflictQuery(appts, bound, req, exclude);
    var i :| 0 <= i < |q| && Overlaps(q[i], req.scheduledTime, req.scheduledTime + req.durationMinutes);
    DoctorAppointmentsInMembers(appts, bound, req.doctorId, req.scheduledTime - ConflictPadding,
                                req.scheduledTime + req.durationMinutes + ConflictPadding, exclude, q[i]);
    k := q[i].id;
  }

  /**
   * Storing one more appointment never turns a conflict into a free slot: the
   * conflict the test found before is still in the query's answer.
   */
  lemma ConflictMonotonic(appts: map<nat, Appointment>, bound: nat, req: AppointmentCreate, exclude: Option<nat>,
                          a: Appointment)
    requires IdsMatchKeys(appts) && (forall k :: k in appts ==> k < bound) && a.id == bound
    requires ConflictIn(false, ConflictQuery(appts, bound, req, exclude), req.scheduledTime, req.durationMinutes)
    ensures ConflictIn(false, ConflictQuery(appts[bound := a], bound + 1, req, exclude), req.scheduledTime, req.durationMinutes)
  {
    var t, d := req.scheduledTime, req.durationMinutes;
    var from, to := t - ConflictPadding, t + d + ConflictPadding;
    var q := ConflictQuery(appts, bound, req, exclude);
    var q' := ConflictQuery(appts[bound := a], bound + 1, req, exclude);
    var i :| 0 <= i < |q| && Overlaps(q[i], t, t + d);
    DoctorAppointmentsInMembers(appts, bound, req.doctorId, from, to, exclude, q[i]);
    DoctorAppointmentsInMembers(appts[bound := a], bound + 1, req.doctorId, from, to, exclude, q[i]);
    var j :| 0 <= j < |q'| && q'[j] == q[i];
    assert Overlaps(q'[j], t, t + d);
  }

  // ---------------------------------------------------------------------------
  // Booking, as functions
  // ---------------------------------------------------------------------------

  /** The stored reason: sanitised when non-empty, otherwise none. */
  function SanitizedReason(reason: Option<string>): (r: Option<string>)
    ensures r.Some? <==> reason.Some? && reason.value != ""
    ensures r.Some? ==> '<' !in r.value && '>' !in r.value && r.value == SanitizeInput(reason.value)
  {
    if reason.Some? && reason.value != "" then Some(SanitizeInput(reason.value)) else None
  }

  /** The request as booking stores it: the reason sanitised, every other field as given. */
  function Sanitized(req: AppointmentCreate): AppointmentCreate
  {
    req.(reason := SanitizedReason(req.reason))
  }

  /**
   * A request naming only patient, doctor and time is booked, when it
   * succeeds, as a scheduled half-hour appointment with no reason and no
   * metadata of its own.
   */
  lemma DefaultRequestBooksHalfHour(id: nat, patientId: nat, doctorId: string, t: int)
    ensures var a := FromCreate(id, Sanitized(NewAppointmentCreate(patientId, doctorId, t)));
      a.status == Scheduled && a.scheduledTime == t && a.End() == t + 30
      && a.reason == None && a.notes == None && a.metadata == map[]
  {
  }

  predicate HasCalendar(d: Doctor)
  {
    d.calendarId.Some? && d.calendarId.value != ""
  }

  /** Whether any of the first `n` gateway answers is a success. */
  predicate AnySuccess(answers: seq<bool>, n: nat)
  {
    exists i :: 0 <= i < n && AnswerAt(answers, i)
  }

  /** Booking's two reminder calls, with two gateway attempts each, deliver iff one of four attempts succeeds. */
  predicate ReminderDelivered(configured: bool, answers: seq<bool>)
  {
    configured && AnySuccess(answers, 4)
  }

  /**
   * How many gateway calls booking's reminder makes: none when unconfigured,
   * otherwise up to and including the first success, at most two per call.
   */
  function ReminderGatewayCalls(configured: bool, answers: seq<bool>): nat
  {
    if configured then CallsUntilSuccess(answers, 2 * ReminderCalls) else 0
  }

  /** The reminder went out exactly when the last gateway call made succeeded. */
  lemma DeliveredIffLastCallSucceeds(configured: bool, answers: seq<bool>)
    ensures ReminderDelivered(configured, answers) <==>
      configured && AnswerAt(answers, ReminderGatewayCalls(configured, answers) - 1)
  {
    if configured {
      var n := ReminderGatewayCalls(configured, answers);
      if AnySuccess(answers, 4) && n == 4 {
        var i :| 0 <= i < 4 && AnswerAt(answers, i);
      }
    }
  }

  /** The metadata a booked appointment ends with: the event id when there is one, and the warning when no reminder went out. */
  function BookedMetadata(m: Metadata, eventId: Option<string>, delivered: bool): (r: Metadata)
    ensures eventId.Some? ==> CalendarEventIdKey in r && r[CalendarEventIdKey] == Str(eventId.value)
    ensures eventId.None? && CalendarEventIdKey != ReminderWarningKey ==>
      (CalendarEventIdKey in r <==> CalendarEventIdKey in m)
    ensures !delivered ==> ReminderWarningKey in r && r[ReminderWarningKey] == Str(ReminderWarning)
    ensures delivered ==> (ReminderWarningKey in r <==> ReminderWarningKey in m)
    ensures forall k :: k in m && k != CalendarEventIdKey && k != ReminderWarningKey ==> k in r && r[k] == m[k]
    ensures r.Keys <= m.Keys + {CalendarEventIdKey, ReminderWarningKey}
  {
    var withEvent := if eventId.Some? then m[CalendarEventIdKey := Str(eventId.value)] else m;
    if delivered then withEvent else withEvent[ReminderWarningKey := Str(ReminderWarning)]
  }

  // ---------------------------------------------------------------------------
  // Lifecycle, as functions
  // ---------------------------------------------------------------------------

  /** The notes after cancelling or completing: old notes, then an audit line, white space stripped. */
  function ClosingNotes(notes: Option<string>, tag: string, arg: Option<string>, fallback: string): string
  {
    Strip(notes.GetOr("") + "\n" + tag + ": " + ClosingDetail(arg, fallback))
  }

  /** The text after the audit tag: the caller's text, or the fallback when none or empty was given. */
  function ClosingDetail(arg: Option<string>, fallback: string): string
  {
    if arg.Some? && arg.value != "" then arg.value else fallback
  }

  const CancelledLabel: string := "Cancelled"
  const NoReasonProvided: string := "No reason provided"
  const CompletedLabel: string := "Completed"
  const NoNotesProvided: string := "No notes provided"

  /** The audit line survives stripping whole, whenever it does not itself end in white space. */
  lemma ClosingNotesRecordAudit(notes: Option<string>, tag: string, arg: Option<string>, fallback: string)
    requires tag != [] && !IsWhitespace(tag[0])
    requires var t := ClosingDetail(arg, fallback); t != [] && !IsWhitespace(t[|t| - 1])
    ensures Contains(ClosingNotes(notes, tag, arg, fallback), tag + ": " + ClosingDetail(arg, fallback))
  {
    var m := tag + ": " + ClosingDetail(arg, fallback);
    var x := notes.GetOr("") + "\n";
    assert notes.GetOr("") + "\n" + tag + ": " + ClosingDetail(arg, fallback) == x + m + "";
    StripKeepsInner(x, m, "");
  }

  /** The earlier notes, stripped, are kept whole in front of the audit line. */
  lemma ClosingNotesKeepHistory(notes: string, tag: string, arg: Option<string>, fallback: string)
    requires Strip(notes) != ""
    ensures Contains(ClosingNotes(Some(notes), tag, arg, fallback), Strip(notes))
  {
    var tail := "\n" + tag + ": " + ClosingDetail(arg, fallback);
    assert Some(notes).GetOr("") + "\n" + tag + ": " + ClosingDetail(arg, fallback) == notes + tail;
    StripKeepsStrippedPrefix(notes, tail);
  }

  lemma DefaultCancelAuditKept(notes: Option<string>)
    ensures Contains(ClosingNotes(notes, CancelledLabel, None, NoReasonProvided), "Cancelled: No reason provided")
  {
    assert CancelledLabel + ": " + NoReasonProvided == "Cancelled: No reason provided";
    ClosingNotesRecordAudit(notes, CancelledLabel, None, NoReasonProvided);
  }

  lemma DefaultCompleteAuditKept(notes: Option<string>)
    ensures Contains(ClosingNotes(notes, CompletedLabel, None, NoNotesProvided), "Completed: No notes provided")
  {
    assert CompletedLabel + ": " + NoNotesProvided == "Completed: No notes provided";
    ClosingNotesRecordAudit(notes, CompletedLabel, None, NoNotesProvided);
  }

  /** The update reschedule writes: the new time and the scheduled status, nothing else. */
  function RescheduleUpdate(newTime: int): (u: AppointmentUpdate)
    ensures u.scheduledTime == Some(newTime) && u.status == Some(Scheduled)
    ensures u.reason.None? && u.notes.None? && u.metadata.None?
  {
    AppointmentUpdate(Some(newTime), Some(Scheduled), None, None, None)
  }

  /** Whether a reschedule asks for a different doctor (an empty id asks for none). */
  predicate ChangesDoctor(a: Appointment, newDoctorId: Option<string>)
  {
    newDoctorId.Some? && newDoctorId.value != "" && newDoctorId.value != a.doctorId
  }

  /** The doctor a reschedule checks conflicts for: the requested one, or the current one. */
  function TargetDoctor(a: Appointment, newDoctorId: Option<string>): (r: string)
    ensures ChangesDoctor(a, newDoctorId) ==> r == newDoctorId.value
    ensures newDoctorId.None? || newDoctorId.value == "" ==> r == a.doctorId
  {
    if newDoctorId.Some? && newDoctorId.value != "" then newDoctorId.value else a.doctorId
  }

  /** The request the reschedule conflict test checks: same patient and length, the new time, the target doctor. */
  function RescheduleCheck(a: Appointment, newTime: int, newDoctorId: Option<string>): (r: AppointmentCreate)
    ensures r.patientId == a.patientId && r.durationMinutes == a.durationMinutes
    ensures r.scheduledTime == newTime && r.doctorId == TargetDoctor(a, newDoctorId)
  {
    NewAppointmentCreate(a.patientId, TargetDoctor(a, newDoctorId), newTime).(durationMinutes := a.durationMinutes)
  }

  /** A reschedule goes ahead: the appointment is scheduled, any requested doctor exists, and the check passes. */
  predicate RescheduleAllowed(db: Store, id: nat, newTime: int, newDoctorId: Option<string>)
    reads db
  {
    id in db.appointments && db.appointments[id].status == Scheduled
    && (ChangesDoctor(db.appointments[id], newDoctorId) ==> newDoctorId.value in db.doctors)
    && !WouldConflict(db, RescheduleCheck(db.appointments[id], newTime, newDoctorId), Some(id))
  }

  /** The update cancel and complete write: the terminal status and the new notes, nothing else. */
  function CloseUpdate(status: AppointmentStatus, notes: string): (u: AppointmentUpdate)
    ensures u.status == Some(status) && u.notes == Some(notes)
    ensures u.scheduledTime.None? && u.reason.None? && u.metadata.None?
  {
    AppointmentUpdate(None, Some(status), None, Some(notes), None)
  }

  /** Rescheduling away and back to the original time restores the scheduled appointment exactly. */
  lemma RescheduleRoundTrip(a: Appointment, newTime: int)
    requires a.status == Scheduled
    ensures ApplyAppointmentUpdate(ApplyAppointmentUpdate(a, RescheduleUpdate(newTime)), RescheduleUpdate(a.scheduledTime)) == a
  {
  }

  /** The appointment after a lifecycle move that only writes status and notes. */
  function Closed(a: Appointment, status: AppointmentStatus, tag: string, arg: Option<string>, fallback: string): (r: Appointment)
    ensures r == a.(status := status, notes := Some(ClosingNotes(a.notes, tag, arg, fallback)))
  {
    ApplyAppointmentUpdate(a, CloseUpdate(status, ClosingNotes(a.notes, tag, arg, fallback)))
  }

  /**
   * As written, a successful reschedule to another doctor can leave the
   * appointment overlapping one of its own doctor's: the conflict test looks
   * at the requested doctor, but the write keeps the old one.
   */
  lemma RescheduleKeepsOldDoctorAndOverlaps()
    ensures
      var x := Appointment(0, 0, "a", 600, 30, Scheduled, None, None, map[]);
      var y := Appointment(1, 1, "a", 900, 30, Scheduled, None, None, map[]);
      var appts := map[0 := x, 1 := y];
      var moved := ApplyAppointmentUpdate(y, RescheduleUpdate(600));
      && !ConflictIn(false, ConflictQuery(appts, 2, RescheduleCheck(y, 600, Some("b")), Some(1)), 600, 30)
      && moved.doctorId == "a" && moved.doctorId == x.doctorId
      && Overlaps(x, moved.scheduledTime, moved.End())
  {
    var x := Appointment(0, 0, "a", 600, 30, Scheduled, None, None, map[]);
    var y := Appointment(1, 1, "a", 900, 30, Scheduled, None, None, map[]);
    var appts := map[0 := x, 1 := y];
    var q := ConflictQuery(appts, 2, RescheduleCheck(y, 600, Some("b")), Some(1));
    assert DoctorAppointmentsIn(appts, 0, "b", 570, 660, Some(1)) == [];
    assert DoctorAppointmentsIn(appts, 1, "b", 570, 660, Some(1)) == [];
    assert q == [];
  }

  /** Writing a key twice leaves the second value. */
  lemma UpdateTwice(m: map<nat, Appointment>, k: nat, x: Appointment, y: Appointment)
    ensures m[k := x][k := y] == m[k := y]
  {
  }

  class AppointmentService {
    const db: Store
    const calendar: CalendarService
    const notifier: WhatsAppGateway

    constructor(db: Store, calendar: CalendarService, notifier: WhatsAppGateway)
      ensures this.db == db && this.calendar == calendar && this.notifier == notifier
    {
      this.db := db;
      this.calendar := calendar;
      this.notifier := notifier;
    }

    /** What the day's appointment query returns for a doctor, `None` when it raises. */
    function DayAppointments(doctorId: string, date: int): Option<seq<Appointment>>
      reads db
    {
      if db.queryFault then None
      else Some(db.DoctorAppointmentsNow(doctorId, DayStart(date), DayStart(date) + MinutesPerDay, None))
    }

    /**
     * The free slots of `durationMinutes` for the doctor on the day of `date`.
     * No offered slot overlaps a stored appointment of the doctor that starts
     * that day, whatever its status.
     */
    method GetAvailableSlots(doctorId: string, date: int, durationMinutes: int) returns (slots: seq<Slot>)
      requires db.Valid()
      ensures slots == SlotsFor(db.GetDoctor(doctorId), DayAppointments(doctorId, date), date, durationMinutes)
      ensures db.queryFault ==> slots == []
      ensures forall i, k :: (0 <= i < |slots| && k in db.appointments
        && InDoctorRange(db.appointments[k], doctorId, DayStart(date), DayStart(date) + MinutesPerDay, None)
        ==> !Overlaps(db.appointments[k], slots[i].start, slots[i].end))
    {
      slots := GetAvailableSlotsWalk(doctorId, date, durationMinutes);
      forall i, k | 0 <= i < |slots| && k in db.appointments
        && InDoctorRange(db.appointments[k], doctorId, DayStart(date), DayStart(date) + MinutesPerDay, None)
        ensures !Overlaps(db.appointments[k], slots[i].start, slots[i].end)
      {
        var a := db.appointments[k];
        DoctorAppointmentsInMembers(db.appointments, db.nextAppointmentId, doctorId, DayStart(date),
                                    DayStart(date) + MinutesPerDay, None, a);
      }
    }

    /** The walk itself: windows in order, candidates advancing within each window. */
    method GetAvailableSlotsWalk(doctorId: string, date: int, d: int) returns (slots: seq<Slot>)
      ensures slots == SlotsFor(db.GetDoctor(doctorId), DayAppointments(doctorId, date), date, d)
    {
      var doctor := db.GetDoctor(doctorId);
      if doctor.None? {
        return [];
      }
      var windows := WindowsOn(doctor.value, Weekday(date));
      if windows == [] {
        return [];
      }
      var dayStart := DayStart(date);
      var fetched := db.DoctorAppointments(doctorId, dayStart, dayStart + MinutesPerDay, None);
      if fetched.None? {
        return [];
      }
      var appts := fetched.value;
      slots := [];
      var w := 0;
      while w < |windows|
        invariant 0 <= w <= |windows|
        invariant slots == DaySlots(windows[..w], dayStart, appts, d)
      {
        var windowSlots := WalkWindow(appts, dayStart + windows[w].start, dayStart + windows[w].end, d);
        assert windows[..w + 1][..w] == windows[..w];
        slots := slots + windowSlots;
        w := w + 1;
      }
      assert windows[..|windows|] == windows;
    }

    /** One window: a candidate start that collides with nothing is taken, and the walk moves on. */
    static method WalkWindow(appts: seq<Appointment>, start: int, end: int, d: int) returns (slots: seq<Slot>)
      ensures slots == WindowSlots(appts, start, end, d)
    {
      slots := [];
      var cur := start;
      while cur + d <= end
        invariant slots + WindowSlots(appts, cur, end, d) == WindowSlots(appts, start, end, d)
        decreases end - d - cur
      {
        var slotEnd := cur + d;
        var hit := FindCollision(appts, cur, slotEnd);
        if hit.Some? {
          WindowSlotsJump(appts, cur, end, d, hit.value);
          cur := hit.value.End();
        } else {
          WindowSlotsTake(slots, appts, cur, end, d);
          slots := slots + [Slot(cur, slotEnd, d)];
          cur := cur + SlotStep;
        }
      }
    }

    /** The inner scan of the walk: the first appointment, in order, that [s, e) collides with. */
    static method FindCollision(appts: seq<Appointment>, s: int, e: int) returns (hit: Option<Appointment>)
      ensures hit == FirstConflict(appts, s, e)
    {
      var k := 0;
      while k < |appts|
        invariant 0 <= k <= |appts|
        invariant forall j :: 0 <= j < k ==> !Overlaps(appts[j], s, e)
      {
        var a := appts[k];
        if s < a.End() && e > a.scheduledTime {
          FirstConflictAt(appts, s, e, k);
          return Some(a);
        }
        k := k + 1;
      }
      return None;
    }

    /**
     * Whether booking `req` would collide with one of the doctor's
     * appointments; true whenever the appointment query raises.
     */
    method HasSchedulingConflict(req: AppointmentCreate, exclude: Option<nat>) returns (conflict: bool)
      ensures conflict == WouldConflict(db, req, exclude)
      ensures db.queryFault ==> conflict
    {
      var fetched := db.DoctorAppointments(req.doctorId, req.scheduledTime - ConflictPadding,
                                            req.scheduledTime + req.durationMinutes + ConflictPadding, exclude);
      if fetched.None? {
        return true;
      }
      var appts := fetched.value;
      var newStart := req.scheduledTime;
      var newEnd := newStart + req.durationMinutes;
      var i := 0;
      while i < |appts|
        invariant 0 <= i <= |appts|
        invariant forall j :: 0 <= j < i ==> !Overlaps(appts[j], newStart, newEnd)
      {
        var existingStart := appts[i].scheduledTime;
        var existingEnd := existingStart + appts[i].durationMinutes;
        if newStart < existingEnd && newEnd > existingStart {
          assert Overlaps(appts[i], newStart, newEnd);
          return true;
        }
        i := i + 1;
      }
      return false;
    }

    /**
     * Books an appointment. Nothing is created when the doctor or the patient
     * is unknown or the slot conflicts. After the booking the calendar event
     * id, if an event was placed, is kept in the metadata; the reminder
     * function is called at most twice; and a warning is kept when no reminder
     * went out.
     */
    method ScheduleAppointment(req: AppointmentCreate) returns (r: Option<Appointment>)
      requires db.Valid()
      modifies db, calendar, notifier
      ensures db.Valid()
      ensures r.None? <==>
        old(req.doctorId !in db.doctors || req.patientId !in db.patients || WouldConflict(db, Sanitized(req), None))
      ensures r.None? ==>
        db.appointments == old(db.appointments) && db.nextAppointmentId == old(db.nextAppointmentId)
        && calendar.calls == old(calendar.calls) && notifier.sent == old(notifier.sent)
      ensures r.Some? ==>
        var a := r.value;
        var placed := HasCalendar(old(db.doctors[req.doctorId]));
        var eventId := if placed then old(calendar.NextInsert()) else None;
        var phone := old(db.patients[req.patientId].phoneNumber);
        && a == FromCreate(old(db.nextAppointmentId), Sanitized(req)).(
             metadata := BookedMetadata(req.metadata, eventId, ReminderDelivered(notifier.configured, old(notifier.answers))))
        && a.id !in old(db.appointments)
        && db.appointments == old(db.appointments)[a.id := a]
        && notifier.sent == old(notifier.sent)
             + seq(ReminderGatewayCalls(notifier.configured, old(notifier.answers)), _ => phone)
        && calendar.calls == old(calendar.calls) + (if placed then [Inserted(a.id, eventId)] else [])
      ensures old(db.queryFault) ==> r.None?
      ensures db.doctors == old(db.doctors) && db.patients == old(db.patients)
    {
      var doctor := db.GetDoctor(req.doctorId);
      if doctor.None? {
        return None;
      }
      var patient := db.GetPatient(req.patientId);
      if patient.None? {
        return None;
      }
      var data := Sanitized(req);
      var conflict := HasSchedulingConflict(data, None);
      if conflict {
        return None;
      }
      var appointment := CommitBooking(data, patient.value.phoneNumber);
      r := Some(appointment);
    }

    /** The part of booking after every check has passed: store, calendar event, reminder. */
    method CommitBooking(data: AppointmentCreate, phone: string) returns (a: Appointment)
      requires db.Valid() && data.doctorId in db.doctors && data.patientId in db.patients
      modifies db, calendar, notifier
      ensures db.Valid()
      ensures var eventId := if HasCalendar(old(db.doctors[data.doctorId])) then old(calendar.NextInsert()) else None;
        a == FromCreate(old(db.nextAppointmentId), data).(
          metadata := BookedMetadata(data.metadata, eventId, ReminderDelivered(notifier.configured, old(notifier.answers))))
      ensures a.id !in old(db.appointments) && db.appointments == old(db.appointments)[a.id := a]
      ensures notifier.sent == old(notifier.sent) + seq(ReminderGatewayCalls(notifier.configured, old(notifier.answers)), _ => phone)
      ensures calendar.calls == old(calendar.calls)
        + (if HasCalendar(old(db.doctors[data.doctorId])) then [Inserted(a.id, old(calendar.NextInsert()))] else [])
      ensures db.doctors == old(db.doctors) && db.patients == old(db.patients)
    {
      ghost var eventId := if HasCalendar(db.doctors[data.doctorId]) then calendar.NextInsert() else None;
      ghost var withEvent := if eventId.Some? then data.metadata[CalendarEventIdKey := Str(eventId.value)] else data.metadata;
      ghost var appts0: map<nat, Appointment> := db.appointments;
      var created := db.CreateAppointment(data);
      a := RecordCalendarEvent(created);
      assert a == FromCreate(old(db.nextAppointmentId), data).(metadata := withEvent);
      UpdateTwice(appts0, a.id, created, a);
      var sent := SendReminders(phone);
      if !sent {
        ghost var b := a;
        a := RecordReminderWarning(a);
        UpdateTwice(appts0, a.id, b, a);
      }
    }

    /** Keeps the failed-reminder warning in a stored appointment's metadata. */
    method RecordReminderWarning(a: Appointment) returns (b: Appointment)
      requires db.Valid() && a.id in db.appointments && db.appointments[a.id] == a
      modifies db
      ensures db.Valid()
      ensures b == a.(metadata := a.metadata[ReminderWarningKey := Str(ReminderWarning)])
      ensures db.appointments == old(db.appointments)[a.id := b]
      ensures db.doctors == old(db.doctors) && db.patients == old(db.patients)
    {
      b := a.(metadata := a.metadata[ReminderWarningKey := Str(ReminderWarning)]);
      var _ := db.UpdateAppointment(a.id, MetadataUpdate(b.metadata));
    }

    /** Places the calendar event of a stored appointment and keeps its id in the appointment's metadata. */
    method RecordCalendarEvent(a: Appointment) returns (b: Appointment)
      requires db.Valid() && a.id in db.appointments && db.appointments[a.id] == a
      requires a.doctorId in db.doctors && a.patientId in db.patients
      modifies db, calendar
      ensures db.Valid()
      ensures var eventId := if HasCalendar(old(db.doctors[a.doctorId])) then old(calendar.NextInsert()) else None;
        b == a.(metadata := if eventId.Some? then a.metadata[CalendarEventIdKey := Str(eventId.value)] else a.metadata)
      ensures calendar.calls == old(calendar.calls)
        + (if HasCalendar(old(db.doctors[a.doctorId])) then [Inserted(a.id, old(calendar.NextInsert()))] else [])
      ensures db.appointments == old(db.appointments)[a.id := b]
      ensures db.doctors == old(db.doctors) && db.patients == old(db.patients)
      ensures db.nextAppointmentId == old(db.nextAppointmentId)
    {
      var eventId := calendar.CreateCalendarEvent(db, a);
      b := a;
      if eventId.Some? {
        var metadata := a.metadata[CalendarEventIdKey := Str(eventId.value)];
        var updated := db.UpdateAppointment(a.id, MetadataUpdate(metadata));
        b := updated.value;
      }
    }

    /**
     * Moves a scheduled appointment to a new time, as written: a requested
     * doctor must exist and is the one checked for conflicts, but the update
     * record cannot carry it, so the appointment keeps its doctor.
     */
    method RescheduleAppointment(id: nat, newTime: int, newDoctorId: Option<string>) returns (r: Option<Appointment>)
      requires db.Valid()
      modifies db, calendar
      ensures db.Valid()
      ensures r.Some? <==> old(RescheduleAllowed(db, id, newTime, newDoctorId))
      ensures r.None? ==> db.appointments == old(db.appointments) && calendar.calls == old(calendar.calls)
      ensures r.Some? ==>
        r.value == ApplyAppointmentUpdate(old(db.appointments[id]), RescheduleUpdate(newTime))
        && db.appointments == old(db.appointments)[id := r.value]
      ensures r.Some? ==> r.value.doctorId == old(db.appointments[id].doctorId)
      ensures r.Some? ==> calendar.calls == old(calendar.calls) + SyncCalls(db, r.value, old(calendar.NextInsert()), old(calendar.unknownEvents))
      ensures r.Some? ==> var a := r.value;
        StoredEventId(a).Some? && DoctorHasCalendar(db, a.doctorId) && StoredEventId(a).value !in old(calendar.unknownEvents) ==>
        calendar.calls == old(calendar.calls) + [Updated(a.id, StoredEventId(a).value, Scheduled, a.scheduledTime, a.End())]
      ensures db.doctors == old(db.doctors) && db.patients == old(db.patients)
      ensures db.nextAppointmentId == old(db.nextAppointmentId)
    {
      var appointment := db.GetAppointment(id);
      if appointment.None? {
        return None;
      }
      var current := appointment.value;
      if current.status != Scheduled {
        return None;
      }
      if ChangesDoctor(current, newDoctorId) {
        var newDoctor := db.GetDoctor(newDoctorId.value);
        if newDoctor.None? {
          return None;
        }
      }
      var conflict := HasSchedulingConflict(RescheduleCheck(current, newTime, newDoctorId), Some(id));
      if conflict {
        return None;
      }
      r := db.UpdateAppointment(id, RescheduleUpdate(newTime));
      if r.None? {
        return None;
      }
      var _ := calendar.UpdateCalendarEvent(db, r.value);
    }

    /**
     * Reschedule with the doctor change persisted: the appointment ends up
     * with the doctor its conflict test was run for, so it overlaps none of
     * that doctor's other appointments of up to 30 minutes.
     */
    method RescheduleAppointmentMovingDoctor(id: nat, newTime: int, newDoctorId: Option<string>)
      returns (r: Option<Appointment>)
      requires db.Valid()
      modifies db, calendar
      ensures db.Valid()
      ensures r.Some? <==> old(RescheduleAllowed(db, id, newTime, newDoctorId))
      ensures r.None? ==> db.appointments == old(db.appointments) && calendar.calls == old(calendar.calls)
      ensures r.Some? ==>
        r.value == ApplyAppointmentUpdate(old(db.appointments[id]), RescheduleUpdate(newTime)).(
          doctorId := TargetDoctor(old(db.appointments[id]), newDoctorId))
        && db.appointments == old(db.appointments)[id := r.value]
      ensures r.Some? ==> forall k :: (k in old(db.appointments) && k != id
        && old(db.appointments[k]).doctorId == r.value.doctorId && old(db.appointments[k]).durationMinutes <= ConflictPadding
        ==> !Overlaps(old(db.appointments[k]), r.value.scheduledTime, r.value.End()))
      ensures r.Some? ==> calendar.calls == old(calendar.calls) + SyncCalls(db, r.value, old(calendar.NextInsert()), old(calendar.unknownEvents))
      ensures r.Some? ==> var a := r.value;
        StoredEventId(a).Some? && DoctorHasCalendar(db, a.doctorId) && StoredEventId(a).value !in old(calendar.unknownEvents) ==>
        calendar.calls == old(calendar.calls) + [Updated(a.id, StoredEventId(a).value, Scheduled, a.scheduledTime, a.End())]
      ensures db.doctors == old(db.doctors) && db.patients == old(db.patients)
      ensures db.nextAppointmentId == old(db.nextAppointmentId)
    {
      var appointment := db.GetAppointment(id);
      if appointment.None? {
        return None;
      }
      var current := appointment.value;
      if current.status != Scheduled {
        return None;
      }
      if ChangesDoctor(current, newDoctorId) {
        var newDoctor := db.GetDoctor(newDoctorId.value);
        if newDoctor.None? {
          return None;
        }
      }
      var check := RescheduleCheck(current, newTime, newDoctorId);
      var conflict := HasSchedulingConflict(check, Some(id));
      if conflict {
        return None;
      }
      NoConflictIsFree(db.appointments, db.nextAppointmentId, check, Some(id));
      var _ := db.UpdateAppointment(id, RescheduleUpdate(newTime));
      r := db.SetAppointmentDoctor(id, TargetDoctor(current, newDoctorId));
      if r.None? {
        return None;
      }
      var _ := calendar.UpdateCalendarEvent(db, r.value);
    }

    /** Cancels a scheduled appointment, appending the reason to its notes; any other status is refused. */
    method CancelAppointment(id: nat, reason: Option<string>) returns (ok: bool)
      requires db.Valid()
      modifies db, calendar
      ensures db.Valid()
      ensures ok <==> old(id in db.appointments && db.appointments[id].status == Scheduled)
      ensures !ok ==> db.appointments == old(db.appointments) && calendar.calls == old(calendar.calls)
      ensures ok ==>
        db.appointments == old(db.appointments)[id := Closed(old(db.appointments[id]), Cancelled, CancelledLabel, reason, NoReasonProvided)]
      ensures ok ==> calendar.calls == old(calendar.calls) + SyncCalls(db, db.appointments[id], old(calendar.NextInsert()), old(calendar.unknownEvents))
      ensures ok ==> var a := db.appointments[id];
        StoredEventId(a).Some? && DoctorHasCalendar(db, a.doctorId) && StoredEventId(a).value !in old(calendar.unknownEvents) ==>
        calendar.calls == old(calendar.calls) + [Updated(a.id, StoredEventId(a).value, Cancelled, a.scheduledTime, a.End())]
      ensures db.doctors == old(db.doctors) && db.patients == old(db.patients)
      ensures db.nextAppointmentId == old(db.nextAppointmentId)
    {
      ok := CloseAppointment(id, Cancelled, CancelledLabel, reason, NoReasonProvided);
    }

    /** Marks a scheduled appointment completed, appending the notes; any other status is refused. */
    method CompleteAppointment(id: nat, notes: Option<string>) returns (ok: bool)
      requires db.Valid()
      modifies db, calendar
      ensures db.Valid()
      ensures ok <==> old(id in db.appointments && db.appointments[id].status == Scheduled)
      ensures !ok ==> db.appointments == old(db.appointments) && calendar.calls == old(calendar.calls)
      ensures ok ==>
        db.appointments == old(db.appointments)[id := Closed(old(db.appointments[id]), Completed, CompletedLabel, notes, NoNotesProvided)]
      ensures ok ==> calendar.calls == old(calendar.calls) + SyncCalls(db, db.appointments[id], old(calendar.NextInsert()), old(calendar.unknownEvents))
      ensures ok ==> var a := db.appointments[id];
        StoredEventId(a).Some? && DoctorHasCalendar(db, a.doctorId) && StoredEventId(a).value !in old(calendar.unknownEvents) ==>
        calendar.calls == old(calendar.calls) + [Updated(a.id, StoredEventId(a).value, Completed, a.scheduledTime, a.End())]
      ensures db.doctors == old(db.doctors) && db.patients == old(db.patients)
      ensures db.nextAppointmentId == old(db.nextAppointmentId)
    {
      ok := CloseAppointment(id, Completed, CompletedLabel, notes, NoNotesProvided);
    }

    /** The shared shape of cancel and complete: guard on the scheduled state, write status and notes, sync the calendar. */
    method CloseAppointment(id: nat, status: AppointmentStatus, tag: string, arg: Option<string>, fallback: string)
      returns (ok: bool)
      requires db.Valid()
      modifies db, calendar
      ensures db.Valid()
      ensures ok <==> old(id in db.appointments && db.appointments[id].status == Scheduled)
      ensures !ok ==> db.appointments == old(db.appointments) && calendar.calls == old(calendar.calls)
      ensures ok ==> db.appointments == old(db.appointments)[id := Closed(old(db.appointments[id]), status, tag, arg, fallback)]
      ensures ok ==> calendar.calls == old(calendar.calls) + SyncCalls(db, db.appointments[id], old(calendar.NextInsert()), old(calendar.unknownEvents))
      ensures ok ==> var a := db.appointments[id];
        StoredEventId(a).Some? && DoctorHasCalendar(db, a.doctorId) && StoredEventId(a).value !in old(calendar.unknownEvents) ==>
        calendar.calls == old(calendar.calls) + [Updated(a.id, StoredEventId(a).value, status, a.scheduledTime, a.End())]
      ensures db.doctors == old(db.doctors) && db.patients == old(db.patients)
      ensures db.nextAppointmentId == old(db.nextAppointmentId)
    {
      var appointment := db.GetAppointment(id);
      if appointment.None? {
        return false;
      }
      if appointment.value.status != Scheduled {
        return false;
      }
      var notes := ClosingNotes(appointment.value.notes, tag, arg, fallback);
      var updated := db.UpdateAppointment(id, CloseUpdate(status, notes));
      if updated.None? {
        return false;
      }
      var _ := calendar.UpdateCalendarEvent(db, updated.value);
      ok := true;
    }

    /** A cancelled appointment cannot be cancelled again: the second call is refused and writes nothing. */
    method CancelTwice(id: nat, reason: Option<string>) returns (first: bool, second: bool)
      requires db.Valid()
      modifies db, calendar
      ensures !second
      ensures first <==> old(id in db.appointments && db.appointments[id].status == Scheduled)
      ensures first ==>
        db.appointments == old(db.appointments)[id := Closed(old(db.appointments[id]), Cancelled, CancelledLabel, reason, NoReasonProvided)]
      ensures !first ==> db.appointments == old(db.appointments) && calendar.calls == old(calendar.calls)
    {
      first := CancelAppointment(id, reason);
      second := CancelAppointment(id, reason);
    }

    /** Booking's reminder loop: up to two calls of the reminder function, stopping at the first success. */
    method SendReminders(to: string) returns (sent: bool)
      modifies notifier
      ensures sent == ReminderDelivered(notifier.configured, old(notifier.answers))
      ensures notifier.sent == old(notifier.sent)
        + seq(ReminderGatewayCalls(notifier.configured, old(notifier.answers)), _ => to)
      ensures notifier.answers
        == Consume(old(notifier.answers), ReminderGatewayCalls(notifier.configured, old(notifier.answers)))
    {
      ghost var answers0 := notifier.answers;
      ghost var sent0 := notifier.sent;
      ghost var total := ReminderGatewayCalls(notifier.configured, answers0);
      sent := false;
      var attempt := 0;
      while attempt < ReminderCalls
        invariant 0 <= attempt <= ReminderCalls
        invariant !sent
        invariant notifier.configured ==> notifier.answers == Consume(answers0, 2 * attempt)
        invariant notifier.configured ==> !AnySuccess(answers0, 2 * attempt)
        invariant notifier.configured ==>
          total == 2 * attempt + CallsUntilSuccess(notifier.answers, 2 * ReminderCalls - 2 * attempt)
        invariant notifier.configured ==> notifier.sent == sent0 + seq(2 * attempt, _ => to)
        invariant !notifier.configured ==> notifier.sent == sent0 && notifier.answers == answers0 && total == 0
      {
        ghost var before := notifier.answers;
        ghost var sentBefore := notifier.sent;
        if notifier.configured {
          CallsUntilSuccessByTwo(before, 2 * ReminderCalls - 2 * attempt);
        }
        sent := notifier.SendWhatsappReminder(to);
        if notifier.configured {
          ConsumeAnswerAt(answers0, 2 * attempt, 0);
          ConsumeAnswerAt(answers0, 2 * attempt, 1);
          RepeatAppend(to, 2 * attempt, AttemptsFor(before));
          ConsumeConsume(answers0, 2 * attempt, AttemptsFor(before));
        }
        if sent {
          assert AnswerAt(answers0, 2 * attempt) || AnswerAt(answers0, 2 * attempt + 1);
          assert total == 2 * attempt + AttemptsFor(before);
          break;
        }
        if notifier.configured {
          assert forall j :: 0 <= j < 2 * attempt + 2 ==> !AnswerAt(answers0, j);
        }
        attempt := attempt + 1;
      }
    }
  }
}
