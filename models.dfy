/**
 * The record shapes of the clinic backend: patients, appointments, doctors,
 * their status enumerations, the partial-update records the services pass to
 * the store, and the phone-number validator.
 *
 * Instants are integer minutes from an epoch that falls on a Monday at 00:00;
 * a time of day is a number of minutes after midnight. Record ids handed out
 * by the store are natural numbers; doctor ids are strings.
 */
module Models {
  import opened Wrappers
  import opened Values

  datatype PatientStatus = New | Active | Inactive
  {
    /** The string value each member carries. */
    function Name(): (r: string)
      ensures r != ""
    {
      match this
      case New => "new"
      case Active => "active"
      case Inactive => "inactive"
    }
  }

  datatype AppointmentStatus = Scheduled | Confirmed | Cancelled | Completed | NoShow
  {
    /** The string value each member carries. */
    function Name(): (r: string)
      ensures r != ""
    {
      match this
      case Scheduled => "scheduled"
      case Confirmed => "confirmed"
      case Cancelled => "cancelled"
      case Completed => "completed"
      case NoShow => "no_show"
    }
  }

  /** The five statuses, in declaration order. */
  const AllAppointmentStatuses: seq<AppointmentStatus> :=
    [Scheduled, Confirmed, Cancelled, Completed, NoShow]

  /** Every status is listed once, and distinct statuses carry distinct names. */
  lemma AppointmentStatusNames()
    ensures forall s: AppointmentStatus :: s in AllAppointmentStatuses
    ensures |AllAppointmentStatuses| == 5
    ensures forall i, j :: 0 <= i < j < 5 ==>
      AllAppointmentStatuses[i].Name() != AllAppointmentStatuses[j].Name()
  {
    forall s: AppointmentStatus ensures s in AllAppointmentStatuses {
      match s
      case Scheduled => assert AllAppointmentStatuses[0] == s;
      case Confirmed => assert AllAppointmentStatuses[1] == s;
      case Cancelled => assert AllAppointmentStatuses[2] == s;
      case Completed => assert AllAppointmentStatuses[3] == s;
      case NoShow => assert AllAppointmentStatuses[4] == s;
    }
    forall i, j | 0 <= i < j < 5
      ensures AllAppointmentStatuses[i].Name() != AllAppointmentStatuses[j].Name()
    {
      var a, b := AllAppointmentStatuses[i].Name(), AllAppointmentStatuses[j].Name();
      assert a[1] != b[1] || a[2] != b[2] || |a| != |b|;
    }
  }

  // ---------------------------------------------------------------------------
  // Patients
  // ---------------------------------------------------------------------------

  datatype Patient = Patient(
    id: nat,
    phoneNumber: string,
    fullName: Option<string>,
    email: Option<string>,
    dateOfBirth: Option<string>,
    status: PatientStatus,
    metadata: Metadata,
    lastInteraction: Option<int>)

  /** The fields a new patient record is created from. */
  datatype PatientCreate = PatientCreate(
    phoneNumber: string,
    fullName: Option<string>,
    email: Option<string>,
    dateOfBirth: Option<string>,
    status: PatientStatus,
    metadata: Metadata,
    lastInteraction: Option<int>)

  /**
   * A partial patient update: a field that is `None` was not set and leaves
   * the stored value alone.
   */
  datatype PatientUpdate = PatientUpdate(
    phoneNumber: Option<string>,
    fullName: Option<string>,
    email: Option<string>,
    dateOfBirth: Option<string>,
    status: Option<PatientStatus>,
    metadata: Option<Metadata>,
    lastInteraction: Option<int>)

  const EmptyPatientUpdate: PatientUpdate := PatientUpdate(None, None, None, None, None, None, None)

  function ApplyPatientUpdate(p: Patient, u: PatientUpdate): (r: Patient)
    ensures r.id == p.id
    ensures r.phoneNumber == u.phoneNumber.GetOr(p.phoneNumber)
    ensures r.fullName == (if u.fullName.Some? then u.fullName else p.fullName)
    ensures r.email == (if u.email.Some? then u.email else p.email)
    ensures r.dateOfBirth == (if u.dateOfBirth.Some? then u.dateOfBirth else p.dateOfBirth)
    ensures r.status == u.status.GetOr(p.status)
    ensures r.metadata == u.metadata.GetOr(p.metadata)
    ensures r.lastInteraction == (if u.lastInteraction.Some? then u.lastInteraction else p.lastInteraction)
  {
    Patient(
      p.id,
      u.phoneNumber.GetOr(p.phoneNumber),
      if u.fullName.Some? then u.fullName else p.fullName,
      if u.email.Some? then u.email else p.email,
      if u.dateOfBirth.Some? then u.dateOfBirth else p.dateOfBirth,
      u.status.GetOr(p.status),
      u.metadata.GetOr(p.metadata),
      if u.lastInteraction.Some? then u.lastInteraction else p.lastInteraction)
  }

  /** An update that sets nothing changes nothing. */
  lemma EmptyPatientUpdateIsIdentity(p: Patient)
    ensures ApplyPatientUpdate(p, EmptyPatientUpdate) == p
  {
  }

  /**
   * The phone validator: a value without a leading `+` (no country code) is
   * rejected; any other value passes unchanged.
   */
  function ValidatePhoneNumber(v: string): (r: Option<string>)
    ensures r.Some? <==> (|v| > 0 && v[0] == '+')
    ensures r.Some? ==> r.value == v
  {
    if |v| > 0 && v[0] == '+' then Some(v) else None
  }

  /** A creation record passes validation exactly when its phone number does. */
  predicate ValidPatientCreate(p: PatientCreate)
  {
    ValidatePhoneNumber(p.phoneNumber).Some?
  }

  /** An update record passes validation when the phone number it sets, if any, does. */
  predicate ValidPatientUpdate(u: PatientUpdate)
  {
    u.phoneNumber.Some? ==> ValidatePhoneNumber(u.phoneNumber.value).Some?
  }

  /** A validated update keeps a validated phone number validated. */
  lemma ValidUpdateKeepsPhoneValid(p: Patient, u: PatientUpdate)
    requires ValidatePhoneNumber(p.phoneNumber).Some? && ValidPatientUpdate(u)
    ensures ValidatePhoneNumber(ApplyPatientUpdate(p, u).phoneNumber).Some?
  {
  }

  /** Applying the same update twice is applying it once. */
  lemma PatientUpdateIdempotent(p: Patient, u: PatientUpdate)
    ensures ApplyPatientUpdate(ApplyPatientUpdate(p, u), u) == ApplyPatientUpdate(p, u)
  {
  }

  // ---------------------------------------------------------------------------
  // Appointments
  // ---------------------------------------------------------------------------

  datatype Appointment = Appointment(
    id: nat,
    patientId: nat,
    doctorId: string,
    scheduledTime: int,
    durationMinutes: int,
    status: AppointmentStatus,
    reason: Option<string>,
    notes: Option<string>,
    metadata: Metadata)
  {
    /** The instant the appointment is over. */
    function End(): (e: int)
      ensures e - scheduledTime == durationMinutes
    {
      scheduledTime + durationMinutes
    }
  }

  datatype AppointmentCreate = AppointmentCreate(
    patientId: nat,
    doctorId: string,
    scheduledTime: int,
    durationMinutes: int,
    status: AppointmentStatus,
    reason: Option<string>,
    notes: Option<string>,
    metadata: Metadata)

  const DefaultDurationMinutes: int := 30

  /** A request that names only the required fields gets the declared defaults. */
  function NewAppointmentCreate(patientId: nat, doctorId: string, scheduledTime: int): (a: AppointmentCreate)
    ensures a.durationMinutes == 30 && a.status == Scheduled && a.metadata == map[]
    ensures a.reason == None && a.notes == None
    ensures a.patientId == patientId && a.doctorId == doctorId && a.scheduledTime == scheduledTime
  {
    AppointmentCreate(patientId, doctorId, scheduledTime, DefaultDurationMinutes, Scheduled, None, None, map[])
  }

  /**
   * A partial appointment update. It has no doctor and no duration field: an
   * appointment's doctor and length can never be changed through it.
   */
  datatype AppointmentUpdate = AppointmentUpdate(
    scheduledTime: Option<int>,
    status: Option<AppointmentStatus>,
    reason: Option<string>,
    notes: Option<string>,
    metadata: Option<Metadata>)

  function MetadataUpdate(m: Metadata): AppointmentUpdate
  {
    AppointmentUpdate(None, None, None, None, Some(m))
  }

  function ApplyAppointmentUpdate(a: Appointment, u: AppointmentUpdate): (r: Appointment)
    ensures r.id == a.id && r.patientId == a.patientId
    ensures r.doctorId == a.doctorId && r.durationMinutes == a.durationMinutes
    ensures r.scheduledTime == u.scheduledTime.GetOr(a.scheduledTime)
    ensures r.status == u.status.GetOr(a.status)
    ensures r.reason == (if u.reason.Some? then u.reason else a.reason)
    ensures r.notes == (if u.notes.Some? then u.notes else a.notes)
    ensures r.metadata == u.metadata.GetOr(a.metadata)
  {
    a.(scheduledTime := u.scheduledTime.GetOr(a.scheduledTime),
       status := u.status.GetOr(a.status),
       reason := if u.reason.Some? then u.reason else a.reason,
       notes := if u.notes.Some? then u.notes else a.notes,
       metadata := u.metadata.GetOr(a.metadata))
  }

  /** Applying the same update twice is applying it once. */
  lemma AppointmentUpdateIdempotent(a: Appointment, u: AppointmentUpdate)
    ensures ApplyAppointmentUpdate(ApplyAppointmentUpdate(a, u), u) == ApplyAppointmentUpdate(a, u)
  {
  }

  /** The record the store keeps for a request, under the id it hands out. */
  function FromCreate(id: nat, c: AppointmentCreate): (a: Appointment)
    ensures a.id == id && a.patientId == c.patientId && a.doctorId == c.doctorId
    ensures a.scheduledTime == c.scheduledTime && a.durationMinutes == c.durationMinutes
    ensures a.status == c.status && a.reason == c.reason && a.notes == c.notes
    ensures a.metadata == c.metadata
  {
    Appointment(id, c.patientId, c.doctorId, c.scheduledTime, c.durationMinutes,
                c.status, c.reason, c.notes, c.metadata)
  }

  // ---------------------------------------------------------------------------
  // Doctors
  // ---------------------------------------------------------------------------

  /** One working-hours window, as minutes after midnight. */
  datatype TimeRange = TimeRange(start: int, end: int)

  datatype Doctor = Doctor(
    id: string,
    name: string,
    specialty: Option<string>,
    workingHours: map<string, seq<TimeRange>>,
    calendarId: Option<string>)

  /** The weekday names, Monday first. */
  const Weekdays: seq<string> :=
    ["monday", "tuesday", "wednesday", "thursday", "friday", "saturday", "sunday"]

  /** The windows a doctor works on a weekday (0 = Monday); none when the day is not configured. */
  function WindowsOn(d: Doctor, weekday: nat): (r: seq<TimeRange>)
    requires weekday < 7
    ensures Weekdays[weekday] !in d.workingHours ==> r == []
    ensures Weekdays[weekday] in d.workingHours ==> r == d.workingHours[Weekdays[weekday]]
  {
    var day := Weekdays[weekday];
    if day in d.workingHours then d.workingHours[day] else []
  }
}
