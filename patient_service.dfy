/**
 * The patient service: creation with de-duplication by phone number, updates,
 * merging a duplicate record into a primary one, and the appointment history
 * summary. The clock is a parameter `now`, in minutes.
 */
module Patients {
  import opened Wrappers
  import opened Values
  import opened Text
  import opened Models
  import opened Database

  // ---------------------------------------------------------------------------
  // Merging, as functions
  // ---------------------------------------------------------------------------

  /** The patient fields a merge may copy. */
  datatype PatientField = PhoneNumber | FullName | Email | DateOfBirth | Status | MetadataField | LastInteraction

  /**
   * The fields the merge loop visits as written: the annotations declared in
   * the update record's own class body, which are just the phone number.
   */
  const AnnotatedFields: seq<PatientField> := [PhoneNumber]

  /** Every field of the update record, the ones it inherits included. */
  const AllFields: seq<PatientField> :=
    [PhoneNumber, FullName, Email, DateOfBirth, Status, MetadataField, LastInteraction]

  predicate TruthyText(v: Option<string>)
  {
    v.Some? && v.value != ""
  }

  /** Python truthiness of a patient's field: empty text, an absent value and an empty dictionary are falsy. */
  predicate Truthy(p: Patient, f: PatientField)
  {
    match f
    case PhoneNumber => p.phoneNumber != ""
    case FullName => TruthyText(p.fullName)
    case Email => TruthyText(p.email)
    case DateOfBirth => TruthyText(p.dateOfBirth)
    case Status => true
    case MetadataField => IsTruthyMap(p.metadata)
    case LastInteraction => p.lastInteraction.Some?
  }

  /** Sets field `f` of the update to the duplicate's value. */
  function CopyField(u: PatientUpdate, f: PatientField, d: Patient): PatientUpdate
  {
    match f
    case PhoneNumber => u.(phoneNumber := Some(d.phoneNumber))
    case FullName => u.(fullName := d.fullName)
    case Email => u.(email := d.email)
    case DateOfBirth => u.(dateOfBirth := d.dateOfBirth)
    case Status => u.(status := Some(d.status))
    case MetadataField => u.(metadata := Some(d.metadata))
    case LastInteraction => u.(lastInteraction := d.lastInteraction)
  }

  /** The field part of the merge update: each visited field the primary lacks and the duplicate has. */
  function FieldUpdate(p: Patient, d: Patient, fields: seq<PatientField>): PatientUpdate
  {
    if fields == [] then EmptyPatientUpdate
    else
      var f := fields[|fields| - 1];
      var u := FieldUpdate(p, d, fields[..|fields| - 1]);
      if !Truthy(p, f) && Truthy(d, f) then CopyField(u, f, d) else u
  }

  /** The field part sets a phone number only to the duplicate's, so it passes validation whenever that one does. */
  lemma {:induction false} FieldUpdatePhone(p: Patient, d: Patient, fields: seq<PatientField>)
    ensures var u := FieldUpdate(p, d, fields); u.phoneNumber.Some? ==> u.phoneNumber.value == d.phoneNumber
  {
    if fields != [] {
      FieldUpdatePhone(p, d, fields[..|fields| - 1]);
    }
  }

  /** The whole merge update: the field part, then the metadata union with the primary's values winning. */
  function MergeUpdate(p: Patient, d: Patient, fields: seq<PatientField>): (u: PatientUpdate)
    ensures IsTruthyMap(d.metadata) ==> u.metadata == Some(d.metadata + p.metadata)
  {
    var u := FieldUpdate(p, d, fields);
    if IsTruthyMap(d.metadata) then u.(metadata := Some(d.metadata + p.metadata)) else u
  }

  /** Merged metadata holds every key of both records, and the primary's value wherever both have one. */
  lemma MergedMetadataUnion(p: Patient, d: Patient, fields: seq<PatientField>)
    requires IsTruthyMap(d.metadata)
    ensures var m := ApplyPatientUpdate(p, MergeUpdate(p, d, fields)).metadata;
      m.Keys == d.metadata.Keys + p.metadata.Keys
      && (forall k :: k in p.metadata ==> m[k] == p.metadata[k])
      && (forall k :: k in d.metadata && k !in p.metadata ==> m[k] == d.metadata[k])
  {
  }

  /** The field part as written touches the phone number only, and only when the primary has none. */
  lemma {:induction false} AnnotatedFieldUpdate(p: Patient, d: Patient)
    ensures var u := FieldUpdate(p, d, AnnotatedFields);
      u.fullName.None? && u.email.None? && u.dateOfBirth.None? && u.status.None?
      && u.metadata.None? && u.lastInteraction.None?
      && (u.phoneNumber.Some? <==> p.phoneNumber == "" && d.phoneNumber != "")
  {
    assert AnnotatedFields[..0] == [];
  }

  /**
   * As written, a primary without a name, email or birth date never gets the
   * duplicate's: here the duplicate's name is lost.
   */
  lemma MergeAsWrittenLosesName()
    ensures
      var p := Patient(0, "+15550001", None, None, None, Active, map[], None);
      var d := Patient(1, "+15550002", Some("Ana"), None, None, Active, map[], None);
      ApplyPatientUpdate(p, MergeUpdate(p, d, AnnotatedFields)).fullName == None
  {
    var p := Patient(0, "+15550001", None, None, None, Active, map[], None);
    var d := Patient(1, "+15550002", Some("Ana"), None, None, Active, map[], None);
    AnnotatedFieldUpdate(p, d);
  }

  /** The value a text field ends with after a merge over all fields: the primary's unless it is falsy and the duplicate's is not. */
  function FilledText(primary: Option<string>, duplicate: Option<string>): Option<string>
  {
    if !TruthyText(primary) && TruthyText(duplicate) then duplicate else primary
  }

  /** The field part over a list of distinct fields sets field `f` exactly as the last visit of `f` decides. */
  lemma {:induction false} FieldUpdateText(p: Patient, d: Patient, fields: seq<PatientField>)
    requires forall i, j :: 0 <= i < j < |fields| ==> fields[i] != fields[j]
    ensures var u := FieldUpdate(p, d, fields);
      (FullName in fields ==> (if u.fullName.Some? then u.fullName else p.fullName) == FilledText(p.fullName, d.fullName))
      && (Email in fields ==> (if u.email.Some? then u.email else p.email) == FilledText(p.email, d.email))
      && (DateOfBirth in fields ==>
            (if u.dateOfBirth.Some? then u.dateOfBirth else p.dateOfBirth) == FilledText(p.dateOfBirth, d.dateOfBirth))
      && (FullName !in fields ==> u.fullName.None?)
      && (Email !in fields ==> u.email.None?)
      && (DateOfBirth !in fields ==> u.dateOfBirth.None?)
  {
    if fields != [] {
      var init := fields[..|fields| - 1];
      FieldUpdateText(p, d, init);
      assert forall g :: g in fields <==> g in init || g == fields[|fields| - 1];
    }
  }

  /** Merging over every field fills each text field the primary lacks from the duplicate, and keeps the rest. */
  lemma MergeAllFieldsFillsGaps(p: Patient, d: Patient)
    ensures var r := ApplyPatientUpdate(p, MergeUpdate(p, d, AllFields));
      r.fullName == FilledText(p.fullName, d.fullName)
      && r.email == FilledText(p.email, d.email)
      && r.dateOfBirth == FilledText(p.dateOfBirth, d.dateOfBirth)
      && r.id == p.id
  {
    FieldUpdateText(p, d, AllFields);
  }

  /** What the duplicate becomes: inactive, with metadata naming the record it was merged into. */
  function RetireUpdate(primaryId: nat): (u: PatientUpdate)
    ensures u.status == Some(Inactive) && u.metadata == Some(map["merged_into" := Str(NatToString(primaryId))])
    ensures u.phoneNumber.None? && u.fullName.None? && u.email.None? && u.dateOfBirth.None? && u.lastInteraction.None?
  {
    EmptyPatientUpdate.(status := Some(Inactive), metadata := Some(map["merged_into" := Str(NatToString(primaryId))]))
  }

  /** The patient table after a merge: the primary updated, then the duplicate retired. */
  function MergedTable(patients: map<nat, Patient>, primaryId: nat, duplicateId: nat, fields: seq<PatientField>):
    map<nat, Patient>
    requires primaryId in patients && duplicateId in patients
  {
    var p, d := patients[primaryId], patients[duplicateId];
    var mid := patients[primaryId := ApplyPatientUpdate(p, MergeUpdate(p, d, fields))];
    mid[duplicateId := ApplyPatientUpdate(mid[duplicateId], RetireUpdate(primaryId))]
  }

  // ---------------------------------------------------------------------------
  // History, as functions
  // ---------------------------------------------------------------------------

  /** The fetched appointments whose start lies in [start, end], in fetched order. */
  function Recent(appts: seq<Appointment>, start: int, end: int): (r: seq<Appointment>)
    ensures forall a :: a in r <==> a in appts && start <= a.scheduledTime <= end
    ensures |r| <= |appts|
  {
    if appts == [] then []
    else
      var last := appts[|appts| - 1];
      assert appts == appts[..|appts| - 1] + [last];
      Recent(appts[..|appts| - 1], start, end) + (if start <= last.scheduledTime <= end then [last] else [])
  }

  /** The window filter keeps the fetched order: filtering a concatenation concatenates the filtered parts. */
  lemma {:induction false} RecentAppend(a: seq<Appointment>, b: seq<Appointment>, start: int, end: int)
    ensures Recent(a + b, start, end) == Recent(a, start, end) + Recent(b, start, end)
  {
    if b != [] {
      var b' := b[..|b| - 1];
      assert (a + b)[..|a + b| - 1] == a + b';
      RecentAppend(a, b', start, end);
    } else {
      assert a + b == a;
    }
  }

  /** A single fetched appointment is kept exactly when it starts in the window. */
  lemma RecentSingle(x: Appointment, start: int, end: int)
    ensures Recent([x], start, end) == if start <= x.scheduledTime <= end then [x] else []
  {
    assert [x][..0] == [];
  }

  function CountStatus(appts: seq<Appointment>, s: AppointmentStatus): (n: nat)
    ensures n <= |appts|
  {
    if appts == [] then 0
    else CountStatus(appts[..|appts| - 1], s) + (if appts[|appts| - 1].status == s then 1 else 0)
  }

  /** The status counts add up to the number of appointments counted. */
  lemma {:induction false} StatusCountsSum(appts: seq<Appointment>)
    ensures CountStatus(appts, Scheduled) + CountStatus(appts, Confirmed) + CountStatus(appts, Cancelled)
      + CountStatus(appts, Completed) + CountStatus(appts, NoShow) == |appts|
  {
    if appts != [] {
      StatusCountsSum(appts[..|appts| - 1]);
    }
  }

  /** The latest start among the fetched appointments; none when nothing was fetched. */
  function LatestStart(appts: seq<Appointment>): (r: Option<int>)
    ensures r.None? <==> appts == []
    ensures r.Some? ==> forall i :: 0 <= i < |appts| ==> appts[i].scheduledTime <= r.value
    ensures r.Some? ==> exists i :: 0 <= i < |appts| && appts[i].scheduledTime == r.value
  {
    if appts == [] then None
    else
      var rest := LatestStart(appts[1..]);
      if rest.None? || appts[0].scheduledTime >= rest.value then
        Some(appts[0].scheduledTime)
      else
        assert forall i :: 1 <= i < |appts| ==> appts[i] == appts[1..][i - 1];
        rest
  }

  /** The first fetched appointment that is scheduled and not yet begun. */
  function NextScheduled(appts: seq<Appointment>, now: int): (r: Option<Appointment>)
    ensures r.Some? ==> r.value in appts && r.value.status == Scheduled && r.value.scheduledTime >= now
    ensures r.None? <==> forall i :: 0 <= i < |appts| ==> !(appts[i].status == Scheduled && appts[i].scheduledTime >= now)
    ensures r.Some? ==>
      exists i :: 0 <= i < |appts| && appts[i] == r.value
        && forall j :: 0 <= j < i ==> !(appts[j].status == Scheduled && appts[j].scheduledTime >= now)
  {
    if appts == [] then None
    else if appts[0].status == Scheduled && appts[0].scheduledTime >= now then Some(appts[0])
    else NextScheduled(appts[1..], now)
  }

  /** The summary of a patient's appointments. The no-show rate is not part of this model. */
  datatype History = History(
    patient: Patient,
    recent: seq<Appointment>,
    total: nat,
    statusCounts: map<AppointmentStatus, nat>,
    lastVisit: Option<int>,
    nextAppointment: Option<Appointment>)

  /** The counts map: each status that occurs, with its number of occurrences. */
  predicate CountsMatch(counts: map<AppointmentStatus, nat>, appts: seq<Appointment>)
  {
    forall s :: (s in counts <==> CountStatus(appts, s) > 0) && (s in counts ==> counts[s] == CountStatus(appts, s))
  }

  /** How many appointments the history fetches. */
  const HistoryLimit: nat := 100

  function HistoryWindowStart(now: int, days: int): int
  {
    now - days * 1440
  }

  /** The history built from what was fetched; `counts` is the status count the loop builds. */
  function HistoryOf(p: Patient, fetched: seq<Appointment>, counts: map<AppointmentStatus, nat>, days: int, now: int): History
  {
    History(p, Recent(fetched, HistoryWindowStart(now, days), now), |fetched|, counts,
            LatestStart(fetched), NextScheduled(fetched, now))
  }

  /** When only upcoming appointments are fetched, the only "recent" ones are those starting at this very minute. */
  lemma RecentOfUpcomingIsNow(fetched: seq<Appointment>, days: int, now: int)
    requires forall i :: 0 <= i < |fetched| ==> fetched[i].scheduledTime >= now
    ensures forall a :: a in Recent(fetched, HistoryWindowStart(now, days), now) ==> a.scheduledTime == now
  {
  }

  /**
   * Over all of a patient's appointments (at most the fetch limit of them),
   * the recent list is exactly the patient's appointments that started in the
   * window.
   */
  lemma RecentOfAllIsWindow(appts: map<nat, Appointment>, bound: nat, patientId: nat, days: int, now: int, a: Appointment)
    requires IdsMatchKeys(appts)
    requires |PatientAppointmentsIn(appts, bound, patientId, AnyTime)| <= HistoryLimit
    ensures var fetched := PatientQueryResult(PatientAppointmentsIn(appts, bound, patientId, AnyTime), AnyTime, HistoryLimit);
      a in Recent(fetched, HistoryWindowStart(now, days), now)
      <==> a.id < bound && a.id in appts && appts[a.id] == a && a.patientId == patientId
           && HistoryWindowStart(now, days) <= a.scheduledTime <= now
  {
    var matches := PatientAppointmentsIn(appts, bound, patientId, AnyTime);
    var fetched := PatientQueryResult(matches, AnyTime, HistoryLimit);
    PatientAppointmentsInMembers(appts, bound, patientId, AnyTime, a);
    assert a in fetched <==> a in multiset(fetched);
    assert a in matches <==> a in multiset(matches);
  }

  class PatientService {
    const db: Store

    constructor(db: Store)
      ensures this.db == db
    {
      this.db := db;
    }

    /**
     * Creates a patient unless one with the same phone number exists, in
     * which case that one is returned and nothing is written. A new patient
     * is always created active.
     */
    method CreatePatient(data: PatientCreate) returns (r: Option<Patient>)
      requires db.Valid() && ValidPatientCreate(data)
      modifies db
      ensures db.Valid()
      ensures r.Some? && r.value.phoneNumber == data.phoneNumber
      ensures old(db.FindPatientByPhone(data.phoneNumber)).Some? ==>
        r == old(db.FindPatientByPhone(data.phoneNumber)) && db.patients == old(db.patients)
      ensures old(db.FindPatientByPhone(data.phoneNumber)).None? ==>
        r.value == Patient(old(db.nextPatientId), data.phoneNumber, data.fullName, data.email, data.dateOfBirth,
                           Active, data.metadata, data.lastInteraction)
        && db.patients == old(db.patients)[r.value.id := r.value]
      ensures PhonesUnique(old(db.patients)) ==> PhonesUnique(db.patients)
      ensures db.appointments == old(db.appointments) && db.doctors == old(db.doctors)
    {
      var existing := db.FindPatientByPhone(data.phoneNumber);
      if existing.Some? {
        return existing;
      }
      var patient := db.CreatePatient(data.(status := Active));
      r := Some(patient);
    }

    /** Updates an existing patient; `None`, with nothing written, for an unknown one. */
    method UpdatePatient(id: nat, u: PatientUpdate) returns (r: Option<Patient>)
      requires db.Valid() && ValidPatientUpdate(u)
      modifies db
      ensures db.Valid()
      ensures id !in old(db.patients) ==> r.None? && db.patients == old(db.patients)
      ensures id in old(db.patients) ==>
        r == Some(ApplyPatientUpdate(old(db.patients[id]), u)) && db.patients == old(db.patients)[id := r.value]
      ensures db.appointments == old(db.appointments) && db.doctors == old(db.doctors)
    {
      var patient := db.GetPatient(id);
      if patient.None? {
        return None;
      }
      r := db.UpdatePatient(id, u);
    }

    /**
     * Merges a duplicate record into a primary one, as written: the field loop
     * visits only the phone number.
     */
    method MergePatients(primaryId: nat, duplicateId: nat) returns (ok: bool)
      requires db.Valid()
      modifies db
      ensures db.Valid()
      ensures ok <==> old(primaryId in db.patients && duplicateId in db.patients)
      ensures !ok ==> db.patients == old(db.patients)
      ensures ok ==> db.patients == MergedTable(old(db.patients), primaryId, duplicateId, AnnotatedFields)
      ensures db.appointments == old(db.appointments) && db.doctors == old(db.doctors)
    {
      ok := MergeOver(primaryId, duplicateId, AnnotatedFields);
    }

    /** Merges a duplicate record into a primary one, visiting every field of the update record. */
    method MergePatientsAllFields(primaryId: nat, duplicateId: nat) returns (ok: bool)
      requires db.Valid()
      modifies db
      ensures db.Valid()
      ensures ok <==> old(primaryId in db.patients && duplicateId in db.patients)
      ensures !ok ==> db.patients == old(db.patients)
      ensures ok ==> db.patients == MergedTable(old(db.patients), primaryId, duplicateId, AllFields)
      ensures ok && primaryId != duplicateId ==>
        db.patients[primaryId].fullName == FilledText(old(db.patients[primaryId].fullName), old(db.patients[duplicateId].fullName))
        && db.patients[primaryId].email == FilledText(old(db.patients[primaryId].email), old(db.patients[duplicateId].email))
      ensures db.appointments == old(db.appointments) && db.doctors == old(db.doctors)
    {
      ok := MergeOver(primaryId, duplicateId, AllFields);
      if ok && primaryId != duplicateId {
        MergeAllFieldsFillsGaps(old(db.patients[primaryId]), old(db.patients[duplicateId]));
      }
    }

    /** The merge over a given field list: build the update in a loop, write the primary, retire the duplicate. */
    method MergeOver(primaryId: nat, duplicateId: nat, fields: seq<PatientField>) returns (ok: bool)
      requires db.Valid()
      modifies db
      ensures db.Valid()
      ensures ok <==> old(primaryId in db.patients && duplicateId in db.patients)
      ensures !ok ==> db.patients == old(db.patients)
      ensures ok ==> db.patients == MergedTable(old(db.patients), primaryId, duplicateId, fields)
      ensures db.appointments == old(db.appointments) && db.doctors == old(db.doctors)
    {
      var primary := db.GetPatient(primaryId);
      var duplicate := db.GetPatient(duplicateId);
      if primary.None? || duplicate.None? {
        return false;
      }
      var p, d := primary.value, duplicate.value;
      var update := EmptyPatientUpdate;
      var i := 0;
      while i < |fields|
        invariant 0 <= i <= |fields|
        invariant update == FieldUpdate(p, d, fields[..i])
      {
        var f := fields[i];
        assert fields[..i + 1][..i] == fields[..i];
        if !Truthy(p, f) && Truthy(d, f) {
          update := CopyField(update, f, d);
        }
        i := i + 1;
      }
      assert fields[..|fields|] == fields;
      if IsTruthyMap(d.metadata) {
        update := update.(metadata := Some(d.metadata + p.metadata));
      }
      FieldUpdatePhone(p, d, fields);
      assert ValidatePhoneNumber(d.phoneNumber).Some?;
      var _ := db.UpdatePatient(primaryId, update);
      var _ := db.UpdatePatient(duplicateId, RetireUpdate(primaryId));
      ok := true;
    }

    /** Counts the fetched appointments by status. */
    static method CountByStatus(appts: seq<Appointment>) returns (counts: map<AppointmentStatus, nat>)
      ensures CountsMatch(counts, appts)
    {
      counts := map[];
      var i := 0;
      while i < |appts|
        invariant 0 <= i <= |appts|
        invariant CountsMatch(counts, appts[..i])
      {
        var s := appts[i].status;
        var n := if s in counts then counts[s] else 0;
        counts := counts[s := n + 1];
        assert appts[..i + 1][..i] == appts[..i];
        i := i + 1;
      }
      assert appts[..|appts|] == appts;
    }

    /**
     * The history summary as written. The fetch asks for upcoming
     * appointments only, so the recent list can hold only appointments that
     * start exactly now.
     */
    method GetPatientHistory(patientId: nat, days: int, now: int) returns (h: Option<History>)
      ensures h.None? <==> patientId !in db.patients
      ensures h.Some? ==>
        var fetched := db.PatientAppointmentsNow(patientId, Upcoming(now), HistoryLimit);
        h.value == HistoryOf(db.patients[patientId], fetched, h.value.statusCounts, days, now)
        && CountsMatch(h.value.statusCounts, fetched)
      ensures h.Some? ==> forall i :: 0 <= i < |h.value.recent| ==> h.value.recent[i].scheduledTime == now
    {
      var patient := db.GetPatient(patientId);
      if patient.None? {
        return None;
      }
      var fetched := db.GetPatientAppointments(patientId, HistoryLimit, true, now);
      var counts := CountByStatus(fetched);
      RecentOfUpcomingIsNow(fetched, days, now);
      h := Some(HistoryOf(patient.value, fetched, counts, days, now));
    }

    /** The history summary over all of the patient's appointments, past ones included. */
    method GetPatientHistoryAllAppointments(patientId: nat, days: int, now: int) returns (h: Option<History>)
      requires db.Valid()
      ensures h.None? <==> patientId !in db.patients
      ensures h.Some? ==>
        var fetched := db.PatientAppointmentsNow(patientId, AnyTime, HistoryLimit);
        h.value == HistoryOf(db.patients[patientId], fetched, h.value.statusCounts, days, now)
        && CountsMatch(h.value.statusCounts, fetched)
      ensures h.Some? && |PatientAppointmentsIn(db.appointments, db.nextAppointmentId, patientId, AnyTime)| <= HistoryLimit ==>
        forall k :: k in db.appointments && db.appointments[k].patientId == patientId
          && HistoryWindowStart(now, days) <= db.appointments[k].scheduledTime <= now
          ==> db.appointments[k] in h.value.recent
    {
      var patient := db.GetPatient(patientId);
      if patient.None? {
        return None;
      }
      var fetched := db.SelectPatientAppointments(patientId, AnyTime, HistoryLimit);
      var counts := CountByStatus(fetched);
      h := Some(HistoryOf(patient.value, fetched, counts, days, now));
      if |PatientAppointmentsIn(db.appointments, db.nextAppointmentId, patientId, AnyTime)| <= HistoryLimit {
        forall k | k in db.appointments && db.appointments[k].patientId == patientId
          && HistoryWindowStart(now, days) <= db.appointments[k].scheduledTime <= now
          ensures db.appointments[k] in h.value.recent
        {
          RecentOfAllIsWindow(db.appointments, db.nextAppointmentId, patientId, days, now, db.appointments[k]);
        }
      }
    }
  }
}
