/**
 * The record store the services talk to, as an in-memory object: one map per
 * table keyed by id, counters that hand out fresh ids, and the queries the
 * services issue. A partial update writes exactly the fields it sets.
 *
 * The doctor-appointments query is called by the scheduling code but has no
 * definition in the store it talks to; here it is the query the callers
 * expect (the doctor's appointments whose start lies in a closed range,
 * optionally minus one id, in id order), and the flag `queryFault` stands for
 * the call raising instead, which is what it does as written.
 */
module Database {
  import opened Wrappers
  import opened Values
  import opened Models

  // ---------------------------------------------------------------------------
  // The doctor-appointments query, as a function of the table
  // ---------------------------------------------------------------------------

  predicate InDoctorRange(a: Appointment, doctorId: string, from: int, to: int, exclude: Option<nat>)
  {
    a.doctorId == doctorId && from <= a.scheduledTime <= to && exclude != Some(a.id)
  }

  /** The matching appointments among the ids below `bound`, in id order. */
  function DoctorAppointmentsIn(appts: map<nat, Appointment>, bound: nat, doctorId: string,
                                from: int, to: int, exclude: Option<nat>): (r: seq<Appointment>)
    ensures forall i :: 0 <= i < |r| ==> InDoctorRange(r[i], doctorId, from, to, exclude)
  {
    if bound == 0 then []
    else
      var k := bound - 1;
      DoctorAppointmentsIn(appts, k, doctorId, from, to, exclude)
        + (if k in appts && InDoctorRange(appts[k], doctorId, from, to, exclude) then [appts[k]] else [])
  }

  predicate IdsMatchKeys(appts: map<nat, Appointment>)
  {
    forall k :: k in appts ==> appts[k].id == k
  }

  /** The query returns exactly the stored appointments that match. */
  lemma {:induction false} DoctorAppointmentsInMembers(appts: map<nat, Appointment>, bound: nat, doctorId: string,
                                                       from: int, to: int, exclude: Option<nat>, a: Appointment)
    requires IdsMatchKeys(appts)
    ensures a in DoctorAppointmentsIn(appts, bound, doctorId, from, to, exclude)
        <==> a.id < bound && a.id in appts && appts[a.id] == a && InDoctorRange(a, doctorId, from, to, exclude)
  {
    if bound > 0 {
      DoctorAppointmentsInMembers(appts, bound - 1, doctorId, from, to, exclude, a);
    }
  }

  // ---------------------------------------------------------------------------
  // Ordering by scheduled time
  // ---------------------------------------------------------------------------

  function SortKey(a: Appointment, descending: bool): int
  {
    if descending then -a.scheduledTime else a.scheduledTime
  }

  predicate SortedByTime(s: seq<Appointment>, descending: bool)
  {
    forall i, j :: 0 <= i < j < |s| ==> SortKey(s[i], descending) <= SortKey(s[j], descending)
  }

  /** Places `x` after every element whose key is not larger, keeping ties in arrival order. */
  function InsertByTime(x: Appointment, s: seq<Appointment>, descending: bool): (r: seq<Appointment>)
    ensures multiset(r) == multiset(s) + multiset{x} && |r| == |s| + 1
    ensures r[0] == x || (s != [] && r[0] == s[0])
  {
    if s == [] || SortKey(x, descending) < SortKey(s[0], descending) then [x] + s
    else
      assert s == [s[0]] + s[1..];
      [s[0]] + InsertByTime(x, s[1..], descending)
  }

  lemma {:induction false} InsertByTimeSorted(x: Appointment, s: seq<Appointment>, descending: bool)
    requires SortedByTime(s, descending)
    ensures SortedByTime(InsertByTime(x, s, descending), descending)
  {
    if s != [] && SortKey(x, descending) >= SortKey(s[0], descending) {
      var rest := InsertByTime(x, s[1..], descending);
      InsertByTimeSorted(x, s[1..], descending);
      assert SortKey(s[0], descending) <= SortKey(rest[0], descending);
    }
  }

  /** A stable sort of `s` by scheduled time, ascending or descending. */
  function SortByTime(s: seq<Appointment>, descending: bool): (r: seq<Appointment>)
    ensures SortedByTime(r, descending)
    ensures multiset(r) == multiset(s) && |r| == |s|
  {
    if s == [] then []
    else
      var init := SortByTime(s[..|s| - 1], descending);
      assert s == s[..|s| - 1] + [s[|s| - 1]];
      InsertByTimeSorted(s[|s| - 1], init, descending);
      InsertByTime(s[|s| - 1], init, descending)
  }

  /** Which scheduled times a patient-appointments query keeps. */
  datatype TimeFilter = Upcoming(now: int) | Past(now: int) | AnyTime

  predicate PassesTimeFilter(a: Appointment, f: TimeFilter)
  {
    match f
    case Upcoming(now) => a.scheduledTime >= now
    case Past(now) => a.scheduledTime < now
    case AnyTime => true
  }

  predicate InPatientQuery(a: Appointment, patientId: nat, f: TimeFilter)
  {
    a.patientId == patientId && PassesTimeFilter(a, f)
  }

  /** The matching appointments among the ids below `bound`, in id order. */
  function PatientAppointmentsIn(appts: map<nat, Appointment>, bound: nat, patientId: nat, f: TimeFilter): (r: seq<Appointment>)
    ensures forall i :: 0 <= i < |r| ==> InPatientQuery(r[i], patientId, f)
  {
    if bound == 0 then []
    else
      var k := bound - 1;
      PatientAppointmentsIn(appts, k, patientId, f)
        + (if k in appts && InPatientQuery(appts[k], patientId, f) then [appts[k]] else [])
  }

  lemma {:induction false} PatientAppointmentsInMembers(appts: map<nat, Appointment>, bound: nat, patientId: nat,
                                                        f: TimeFilter, a: Appointment)
    requires IdsMatchKeys(appts)
    ensures a in PatientAppointmentsIn(appts, bound, patientId, f)
        <==> a.id < bound && a.id in appts && appts[a.id] == a && InPatientQuery(a, patientId, f)
  {
    if bound > 0 {
      PatientAppointmentsInMembers(appts, bound - 1, patientId, f, a);
    }
  }

  /**
   * The first `limit` matches in time order: ascending unless the query is
   * restricted to past appointments, which come newest first.
   */
  function PatientQueryResult(matches: seq<Appointment>, f: TimeFilter, limit: nat): (r: seq<Appointment>)
    ensures |r| == if limit < |matches| then limit else |matches|
    ensures SortedByTime(r, f.Past?)
    ensures multiset(r) <= multiset(matches)
    ensures |matches| <= limit ==> multiset(r) == multiset(matches)
    ensures forall i, m :: 0 <= i < |r| && m in multiset(matches) - multiset(r) ==>
      SortKey(r[i], f.Past?) <= SortKey(m, f.Past?)
  {
    var sorted := SortByTime(matches, f.Past?);
    var n := if limit < |sorted| then limit else |sorted|;
    SortedPrefixKeepsSmallest(matches, sorted, n, f.Past?);
    sorted[..n]
  }

  /** A prefix of a sorted arrangement holds its smallest elements: nothing left out sorts before them. */
  lemma SortedPrefixKeepsSmallest(matches: seq<Appointment>, sorted: seq<Appointment>, n: nat, descending: bool)
    requires SortedByTime(sorted, descending) && n <= |sorted|
    requires multiset(sorted) == multiset(matches)
    ensures SortedByTime(sorted[..n], descending)
    ensures multiset(sorted[..n]) <= multiset(matches)
    ensures n == |sorted| ==> multiset(sorted[..n]) == multiset(matches)
    ensures forall i, m :: 0 <= i < n && m in multiset(matches) - multiset(sorted[..n]) ==>
      SortKey(sorted[i], descending) <= SortKey(m, descending)
  {
    assert sorted == sorted[..n] + sorted[n..];
    assert multiset(sorted) == multiset(sorted[..n]) + multiset(sorted[n..]);
    forall i, m | 0 <= i < n && m in multiset(matches) - multiset(sorted[..n])
      ensures SortKey(sorted[i], descending) <= SortKey(m, descending)
    {
      assert m in multiset(sorted[n..]);
      var j :| n <= j < |sorted| && sorted[j] == m;
    }
  }

  // ---------------------------------------------------------------------------
  // Patients by phone number
  // ---------------------------------------------------------------------------

  /** The patient with the lowest id in [i, bound) whose phone number is `phone`. */
  function PatientWithPhone(patients: map<nat, Patient>, phone: string, i: nat, bound: nat): (r: Option<Patient>)
    decreases bound - i
    ensures r.Some? ==> exists k :: i <= k < bound && k in patients && patients[k] == r.value
    ensures r.Some? ==> r.value.phoneNumber == phone
    ensures r.None? <==> forall k :: i <= k < bound && k in patients ==> patients[k].phoneNumber != phone
  {
    if i >= bound then None
    else if i in patients && patients[i].phoneNumber == phone then Some(patients[i])
    else PatientWithPhone(patients, phone, i + 1, bound)
  }

  /** No two patient records share a phone number. */
  predicate PhonesUnique(patients: map<nat, Patient>)
  {
    forall j, k :: j in patients && k in patients && j != k ==> patients[j].phoneNumber != patients[k].phoneNumber
  }

  class Store {
    var doctors: map<string, Doctor>
    var patients: map<nat, Patient>
    var appointments: map<nat, Appointment>
    var nextPatientId: nat
    var nextAppointmentId: nat
    /** Whether the doctor-appointments query raises. */
    var queryFault: bool

    /**
     * Every record sits under its own id, below the next id to be handed out,
     * and every patient record passes the phone validator.
     */
    predicate Valid()
      reads this
    {
      (forall k :: k in doctors ==> doctors[k].id == k)
      && (forall k :: k in patients ==> k < nextPatientId && patients[k].id == k)
      && (forall k :: k in patients ==> ValidatePhoneNumber(patients[k].phoneNumber).Some?)
      && (forall k :: k in appointments ==> k < nextAppointmentId)
      && IdsMatchKeys(appointments)
    }

    constructor(doctors: map<string, Doctor>, queryFault: bool)
      requires forall k :: k in doctors ==> doctors[k].id == k
      ensures Valid()
      ensures this.doctors == doctors && this.queryFault == queryFault
      ensures patients == map[] && appointments == map[]
    {
      this.doctors := doctors;
      this.queryFault := queryFault;
      patients := map[];
      appointments := map[];
      nextPatientId := 0;
      nextAppointmentId := 0;
    }

    function GetDoctor(id: string): (r: Option<Doctor>)
      reads this
      ensures r.Some? <==> id in doctors
      ensures r.Some? ==> r.value == doctors[id]
    {
      if id in doctors then Some(doctors[id]) else None
    }

    function GetPatient(id: nat): (r: Option<Patient>)
      reads this
      ensures r.Some? <==> id in patients
      ensures r.Some? ==> r.value == patients[id]
    {
      if id in patients then Some(patients[id]) else None
    }

    function GetAppointment(id: nat): (r: Option<Appointment>)
      reads this
      ensures r.Some? <==> id in appointments
      ensures r.Some? ==> r.value == appointments[id]
    {
      if id in appointments then Some(appointments[id]) else None
    }

    /** Every stored phone number carries a country code: it starts with `+`. */
    lemma StoredPhonesHaveCountryCode()
      requires Valid()
      ensures forall k :: k in patients ==> |patients[k].phoneNumber| > 0 && patients[k].phoneNumber[0] == '+'
    {
      forall k | k in patients ensures |patients[k].phoneNumber| > 0 && patients[k].phoneNumber[0] == '+' {
        assert ValidatePhoneNumber(patients[k].phoneNumber).Some?;
      }
    }

    /** The first stored patient, by id, with this phone number. */
    function FindPatientByPhone(phone: string): (r: Option<Patient>)
      reads this
      requires Valid()
      ensures r.Some? ==> r.value.id in patients && patients[r.value.id] == r.value && r.value.phoneNumber == phone
      ensures r.None? <==> forall k :: k in patients ==> patients[k].phoneNumber != phone
    {
      PatientWithPhone(patients, phone, 0, nextPatientId)
    }

    method CreatePatient(c: PatientCreate) returns (p: Patient)
      requires Valid() && ValidPatientCreate(c)
      modifies this
      ensures Valid()
      ensures p.id == old(nextPatientId) && p.id !in old(patients)
      ensures p == Patient(p.id, c.phoneNumber, c.fullName, c.email, c.dateOfBirth, c.status, c.metadata, c.lastInteraction)
      ensures patients == old(patients)[p.id := p] && nextPatientId == old(nextPatientId) + 1
      ensures doctors == old(doctors) && appointments == old(appointments)
      ensures nextAppointmentId == old(nextAppointmentId) && queryFault == old(queryFault)
    {
      p := Patient(nextPatientId, c.phoneNumber, c.fullName, c.email, c.dateOfBirth, c.status, c.metadata, c.lastInteraction);
      patients := patients[p.id := p];
      nextPatientId := nextPatientId + 1;
    }

    /** Writes the fields `u` sets; `None` when there is no such patient. */
    method UpdatePatient(id: nat, u: PatientUpdate) returns (r: Option<Patient>)
      requires Valid() && ValidPatientUpdate(u)
      modifies this
      ensures Valid()
      ensures id in old(patients) ==> r == Some(ApplyPatientUpdate(old(patients)[id], u)) && patients == old(patients)[id := r.value]
      ensures id !in old(patients) ==> r == None && patients == old(patients)
      ensures doctors == old(doctors) && appointments == old(appointments)
      ensures nextPatientId == old(nextPatientId) && nextAppointmentId == old(nextAppointmentId)
      ensures queryFault == old(queryFault)
    {
      if id in patients {
        var p := ApplyPatientUpdate(patients[id], u);
        patients := patients[id := p];
        r := Some(p);
      } else {
        r := None;
      }
    }

    method CreateAppointment(c: AppointmentCreate) returns (a: Appointment)
      requires Valid()
      modifies this
      ensures Valid()
      ensures a == FromCreate(old(nextAppointmentId), c) && a.id !in old(appointments)
      ensures appointments == old(appointments)[a.id := a] && nextAppointmentId == old(nextAppointmentId) + 1
      ensures doctors == old(doctors) && patients == old(patients)
      ensures nextPatientId == old(nextPatientId) && queryFault == old(queryFault)
    {
      a := FromCreate(nextAppointmentId, c);
      appointments := appointments[a.id := a];
      nextAppointmentId := nextAppointmentId + 1;
    }

    /** Writes the fields `u` sets; `None` when there is no such appointment. */
    method UpdateAppointment(id: nat, u: AppointmentUpdate) returns (r: Option<Appointment>)
      requires Valid()
      modifies this
      ensures Valid()
      ensures id in old(appointments) ==>
        r == Some(ApplyAppointmentUpdate(old(appointments)[id], u)) && appointments == old(appointments)[id := r.value]
      ensures id !in old(appointments) ==> r == None && appointments == old(appointments)
      ensures doctors == old(doctors) && patients == old(patients)
      ensures nextPatientId == old(nextPatientId) && nextAppointmentId == old(nextAppointmentId)
      ensures queryFault == old(queryFault)
    {
      if id in appointments {
        var a := ApplyAppointmentUpdate(appointments[id], u);
        appointments := appointments[id := a];
        r := Some(a);
      } else {
        r := None;
      }
    }

    /**
     * Moves an appointment to another doctor. The update record has no
     * doctor field, so only the corrected reschedule uses this write.
     */
    method SetAppointmentDoctor(id: nat, doctorId: string) returns (r: Option<Appointment>)
      requires Valid()
      modifies this
      ensures Valid()
      ensures id in old(appointments) ==>
        r == Some(old(appointments)[id].(doctorId := doctorId)) && appointments == old(appointments)[id := r.value]
      ensures id !in old(appointments) ==> r == None && appointments == old(appointments)
      ensures doctors == old(doctors) && patients == old(patients)
      ensures nextPatientId == old(nextPatientId) && nextAppointmentId == old(nextAppointmentId)
      ensures queryFault == old(queryFault)
    {
      if id in appointments {
        var a := appointments[id].(doctorId := doctorId);
        appointments := appointments[id := a];
        r := Some(a);
      } else {
        r := None;
      }
    }

    /** The query as a function of the current table. */
    function DoctorAppointmentsNow(doctorId: string, from: int, to: int, exclude: Option<nat>): seq<Appointment>
      reads this
    {
      DoctorAppointmentsIn(appointments, nextAppointmentId, doctorId, from, to, exclude)
    }

    /**
     * The doctor's appointments starting in [from, to], except `exclude`, in
     * id order; `None` when the query raises.
     */
    method DoctorAppointments(doctorId: string, from: int, to: int, exclude: Option<nat>) returns (r: Option<seq<Appointment>>)
      ensures queryFault ==> r == None
      ensures !queryFault ==> r == Some(DoctorAppointmentsNow(doctorId, from, to, exclude))
    {
      if queryFault {
        return None;
      }
      var acc: seq<Appointment> := [];
      var i: nat := 0;
      while i < nextAppointmentId
        invariant i <= nextAppointmentId
        invariant acc == DoctorAppointmentsIn(appointments, i, doctorId, from, to, exclude)
      {
        if i in appointments && InDoctorRange(appointments[i], doctorId, from, to, exclude) {
          acc := acc + [appointments[i]];
        }
        i := i + 1;
      }
      return Some(acc);
    }

    /** A patient's appointments as a function of the current table. */
    function PatientAppointmentsNow(patientId: nat, f: TimeFilter, limit: nat): seq<Appointment>
      reads this
    {
      PatientQueryResult(PatientAppointmentsIn(appointments, nextAppointmentId, patientId, f), f, limit)
    }

    /** The patient's appointments that pass `f`, in id order. */
    method CollectPatientAppointments(patientId: nat, f: TimeFilter) returns (acc: seq<Appointment>)
      ensures acc == PatientAppointmentsIn(appointments, nextAppointmentId, patientId, f)
    {
      acc := [];
      var i: nat := 0;
      while i < nextAppointmentId
        invariant i <= nextAppointmentId
        invariant acc == PatientAppointmentsIn(appointments, i, patientId, f)
      {
        if i in appointments && InPatientQuery(appointments[i], patientId, f) {
          acc := acc + [appointments[i]];
        }
        i := i + 1;
      }
    }

    /** The patient's appointments that pass `f`, in time order, at most `limit` of them. */
    method SelectPatientAppointments(patientId: nat, f: TimeFilter, limit: nat) returns (r: seq<Appointment>)
      ensures r == PatientAppointmentsNow(patientId, f, limit)
    {
      var acc := CollectPatientAppointments(patientId, f);
      r := PatientQueryResult(acc, f, limit);
    }

    /**
     * A patient's upcoming appointments (start at or after `now`, earliest
     * first) or past ones (start before `now`, latest first), at most `limit`.
     */
    method GetPatientAppointments(patientId: nat, limit: nat, upcoming: bool, now: int) returns (r: seq<Appointment>)
      ensures |r| <= limit
      ensures forall i :: 0 <= i < |r| ==> r[i].patientId == patientId
      ensures upcoming ==> forall i :: 0 <= i < |r| ==> r[i].scheduledTime >= now
      ensures !upcoming ==> forall i :: 0 <= i < |r| ==> r[i].scheduledTime < now
      ensures SortedByTime(r, !upcoming)
      ensures r == PatientAppointmentsNow(patientId, if upcoming then Upcoming(now) else Past(now), limit)
    {
      var f := if upcoming then Upcoming(now) else Past(now);
      r := SelectPatientAppointments(patientId, f, limit);
      var matches := PatientAppointmentsIn(appointments, nextAppointmentId, patientId, f);
      forall i | 0 <= i < |r| ensures InPatientQuery(r[i], patientId, f) {
        assert r[i] in multiset(matches);
      }
    }
  }
}
