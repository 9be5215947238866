/**
 * The calendar collaborator of the scheduling service. The remote calendar is
 * reduced to what the callers observe: an insert yields an event id or fails,
 * an update succeeds unless the event is unknown remotely (HTTP 404), in which
 * case a fresh event is inserted instead.
 */
module Calendar {
  import opened Wrappers
  import opened Values
  import opened Models
  import opened Database

  /** The metadata key under which an appointment keeps its calendar event id. */
  const CalendarEventIdKey: string := "calendar_event_id"

  /** What the service asked of the remote calendar. */
  datatype CalendarCall =
    | Inserted(appointmentId: nat, answer: Option<string>)
    | Updated(appointmentId: nat, eventId: string, status: AppointmentStatus, start: int, end: int)

  /** The event id an appointment's metadata holds, if it holds a string one. */
  function StoredEventId(a: Appointment): (r: Option<string>)
    ensures r.Some? ==> CalendarEventIdKey in a.metadata && a.metadata[CalendarEventIdKey] == Str(r.value)
    ensures CalendarEventIdKey !in a.metadata ==> r == None
  {
    if CalendarEventIdKey in a.metadata && a.metadata[CalendarEventIdKey].Str? then
      Some(a.metadata[CalendarEventIdKey].s)
    else None
  }

  /** The doctor is on record and has a calendar: its events can be read and written. */
  predicate DoctorHasCalendar(db: Store, doctorId: string)
    reads db
  {
    doctorId in db.doctors && db.doctors[doctorId].calendarId.Some? && db.doctors[doctorId].calendarId.value != ""
  }

  /** The doctor's calendar exists and the patient is on record: an event can be placed. */
  predicate CanPlaceEvent(db: Store, a: Appointment)
    reads db
  {
    DoctorHasCalendar(db, a.doctorId) && a.patientId in db.patients
  }

  /**
   * The remote calls one sync of appointment `a` makes, given the answer the
   * next insert would get and the event ids the remote calendar does not know:
   * an update of the stored event, an insert when there is no stored event id
   * or the stored one is unknown remotely, or nothing when the event cannot be
   * reached or placed.
   */
  function SyncCalls(db: Store, a: Appointment, next: Option<string>, unknown: set<string>): (r: seq<CalendarCall>)
    reads db
    ensures |r| <= 1 && forall c :: c in r ==> c.appointmentId == a.id
    ensures r != [] && r[0].Updated? ==> r[0].status == a.status && r[0].start == a.scheduledTime && r[0].end == a.End()
  {
    var stored := StoredEventId(a);
    if CalendarEventIdKey in a.metadata && (stored.None? || !DoctorHasCalendar(db, a.doctorId)) then []
    else if CalendarEventIdKey in a.metadata && stored.value !in unknown then
      [Updated(a.id, stored.value, a.status, a.scheduledTime, a.End())]
    else if CanPlaceEvent(db, a) then [Inserted(a.id, next)]
    else []
  }

  class CalendarService {
    /** The answers the remote calendar gives to successive inserts: an event id, or `None` for an HTTP error. */
    var insertAnswers: seq<Option<string>>
    /** Event ids the remote calendar answers 404 for. */
    var unknownEvents: set<string>
    /** Every remote call made, in order. */
    var calls: seq<CalendarCall>

    constructor(insertAnswers: seq<Option<string>>, unknownEvents: set<string>)
      ensures this.insertAnswers == insertAnswers && this.unknownEvents == unknownEvents && calls == []
    {
      this.insertAnswers := insertAnswers;
      this.unknownEvents := unknownEvents;
      calls := [];
    }

    /** The answer the next insert gets: an exhausted script means the call fails. */
    function NextInsert(): (r: Option<string>)
      reads this
      ensures insertAnswers == [] ==> r == None
    {
      if insertAnswers == [] then None else insertAnswers[0]
    }

    /**
     * Inserts an event for the appointment and returns its id; `None` without
     * calling the remote calendar when the doctor has no calendar or the
     * patient is unknown, and `None` when the insert fails.
     */
    method CreateCalendarEvent(db: Store, a: Appointment) returns (eventId: Option<string>)
      modifies this
      ensures !CanPlaceEvent(db, a) ==> eventId == None && insertAnswers == old(insertAnswers) && calls == old(calls)
      ensures CanPlaceEvent(db, a) ==>
        eventId == old(NextInsert())
        && insertAnswers == (if old(insertAnswers) == [] then [] else old(insertAnswers)[1..])
        && calls == old(calls) + [Inserted(a.id, eventId)]
      ensures unknownEvents == old(unknownEvents)
    {
      if !CanPlaceEvent(db, a) {
        return None;
      }
      eventId := NextInsert();
      if insertAnswers != [] {
        insertAnswers := insertAnswers[1..];
      }
      calls := calls + [Inserted(a.id, eventId)];
    }

    /**
     * Brings the appointment's event up to date: status, start and end. An
     * appointment without a stored event id, or whose event the remote
     * calendar does not know, gets a fresh event instead (which, as for any
     * insert, also needs the patient on record); when the appointment has an
     * event id, a doctor without a calendar means no call at all.
     */
    method UpdateCalendarEvent(db: Store, a: Appointment) returns (eventId: Option<string>)
      modifies this
      ensures CalendarEventIdKey !in a.metadata ==>
        (!CanPlaceEvent(db, a) ==> eventId == None && calls == old(calls))
        && (CanPlaceEvent(db, a) ==> eventId == old(NextInsert()) && calls == old(calls) + [Inserted(a.id, eventId)])
      ensures CalendarEventIdKey in a.metadata && StoredEventId(a).Some? && DoctorHasCalendar(db, a.doctorId)
              && StoredEventId(a).value !in unknownEvents ==>
        eventId == StoredEventId(a) && insertAnswers == old(insertAnswers)
        && calls == old(calls) + [Updated(a.id, eventId.value, a.status, a.scheduledTime, a.End())]
      ensures CalendarEventIdKey in a.metadata && StoredEventId(a).Some? && DoctorHasCalendar(db, a.doctorId)
              && StoredEventId(a).value in unknownEvents ==>
        (!CanPlaceEvent(db, a) ==> eventId == None && calls == old(calls))
        && (CanPlaceEvent(db, a) ==> eventId == old(NextInsert()) && calls == old(calls) + [Inserted(a.id, eventId)])
      ensures CalendarEventIdKey in a.metadata && (StoredEventId(a).None? || !DoctorHasCalendar(db, a.doctorId)) ==>
        eventId == None && calls == old(calls) && insertAnswers == old(insertAnswers)
      ensures calls == old(calls) + SyncCalls(db, a, old(NextInsert()), old(unknownEvents))
      ensures unknownEvents == old(unknownEvents)
    {
      if CalendarEventIdKey !in a.metadata {
        eventId := CreateCalendarEvent(db, a);
        return;
      }
      var stored := StoredEventId(a);
      if stored.None? || !DoctorHasCalendar(db, a.doctorId) {
        return None;
      }
      if stored.value in unknownEvents {
        eventId := CreateCalendarEvent(db, a);
        return;
      }
      calls := calls + [Updated(a.id, stored.value, a.status, a.scheduledTime, a.End())];
      eventId := stored;
    }
  }
}
