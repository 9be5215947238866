# Clinic appointment engine — a Dafny model

This project models the core of a clinic's voice-assistant backend. That core has five parts:

- **The appointment scheduling engine.** It books, reschedules, cancels and completes appointments. It checks each request against the doctor's other appointments, fails closed when that check breaks, and lists the free slots of a doctor's working day.
- **The patient service.** It creates patients with de-duplication by phone number, updates them, merges a duplicate record into a primary one, and summarises a patient's appointment history.
- **The input utilities.** These sanitise text, merge nested dictionaries, format durations, validate e-mail addresses and mask secrets.
- **The record types.** These are patients, appointments, doctors and their partial updates.
- **The clinic knowledge base.** It looks up doctors and assembles the context prompt that introduces the clinic to the assistant.

The record store is an in-memory `Store` class that holds maps keyed by id. Each id is handed out by a counter. The calendar and the WhatsApp gateway are classes whose answers are scripted, and they log every call they receive.

Instants are integer minutes from an epoch that is a Monday at 00:00. A working-hours window is a pair of minutes after midnight. The current time is a parameter `now`.

Modules, one per file:

| file | module | models |
|---|---|---|
| `wrappers.dfy` | `Wrappers` | `Option` |
| `values.dfy` | `Values` | JSON-like values for metadata dictionaries |
| `text.dfy` | `Text` | Python string operations used by the source: `lower`, `capitalize`, `in`, `strip`, `join`, integer formatting |
| `models.dfy` | `Models` | models.py |
| `database.dfy` | `Database` | database.py, plus the doctor-appointments query |
| `calendar.dfy` | `Calendar` | the calendar collaborator in calendar_service.py |
| `reminder.dfy` | `Reminder` | reminder_service.py |
| `utils.dfy` | `Utils` | utils.py |
| `appointment_service.dfy` | `Appointments` | appointment_service.py |
| `patient_service.dfy` | `Patients` | patient_service.py |
| `knowledge_base.dfy` | `KnowledgeBase` | knowledge_base/manager.py |

Where the source's documented intent and its code disagree, the model follows the code:

- **Failure results.** Operations report failure as `None` or `false`, not as named failure reasons.
- **Cancel and complete results.** Both return a boolean, not the appointment.
- **Reminder attempts.** Booking calls the reminder function up to twice. That function itself tries the gateway twice, so one booking can make four gateway calls, not two.
- **Rescheduling to another doctor.** The doctor change is not persisted (see Findings).

## Model

| member | source | states |
|---|---|---|
| Models.PatientStatus.Name | models.py:7-10 | each patient status carries a non-empty string value |
| Models.AppointmentStatus.Name | models.py:12-17 | each appointment status carries a non-empty string value |
| Models.AppointmentStatusNames | models.py:12-17 | there are exactly five appointment statuses, and their string values are pairwise distinct |
| Models.EmptyPatientUpdateIsIdentity | models.py:37-38 | an update that sets nothing leaves the patient unchanged |
| Models.ValidUpdateKeepsPhoneValid | models.py:27-38 | a validated patient with a validated update keeps a phone number that starts with `+` |
| Models.PatientUpdateIdempotent | models.py:37-38 | applying the same partial patient update twice is applying it once |
| Models.AppointmentUpdateIdempotent | models.py:61-66 | applying the same appointment update twice is applying it once |
| Database.DoctorAppointmentsIn | appointment_service.py:268-272 | every appointment the doctor query returns is the doctor's, lies in the time range and is not the excluded one |
| Database.DoctorAppointmentsInMembers | appointment_service.py:328-333 | the doctor query returns exactly the stored appointments of the doctor whose start lies in the range, minus the excluded one |
| Database.InsertByTime | database.py:100 | inserting into a time-ordered list adds exactly that element |
| Database.InsertByTimeSorted | database.py:100 | insertion keeps the list ordered by scheduled time |
| Database.SortByTime | database.py:100 | ordering by scheduled time is a permutation that is sorted, ascending or descending |
| Database.PatientAppointmentsIn | database.py:93-98 | every appointment returned belongs to the patient and passes the upcoming or past filter |
| Database.PatientAppointmentsInMembers | database.py:93-98 | the patient query returns exactly the patient's stored appointments that pass the filter |
| Database.PatientQueryResult | database.py:100-103 | the answer holds exactly min(`limit`, number of matches) of the matches, ordered ascending for upcoming and descending for past; every match left out sorts no earlier than every match kept; all of them when they fit |
| Database.SortedPrefixKeepsSmallest | database.py:100-103 | a prefix of a sorted arrangement of the matches is sorted, is a sub-multiset of them, and nothing left out sorts before anything kept |
| Database.PatientWithPhone | database.py:46-53 | the phone lookup finds a record with that number, and finds none exactly when no record has it |
| Database.Store.constructor | database.py:17-26 | a fresh store holds the given doctors and no patients or appointments |
| Database.Store.StoredPhonesHaveCountryCode | models.py:27-32 | in a valid store every patient's phone number is non-empty and starts with `+` |
| Database.Store.FindPatientByPhone | database.py:46-53 | the result is a stored patient with that phone number; there is none exactly when no patient has it |
| Database.Store.CreatePatient | database.py:28-35 | the new patient gets a fresh id and exactly the given fields; nothing else changes |
| Database.Store.UpdatePatient | database.py:55-69 | a stored patient gets the set fields written; an unknown id writes nothing and gives `None` |
| Database.Store.CreateAppointment | database.py:72-79 | the new appointment gets a fresh id and exactly the request's fields; nothing else changes |
| Database.Store.UpdateAppointment | database.py:108-122 | a stored appointment gets the set fields written; an unknown id writes nothing and gives `None` |
| Database.Store.SetAppointmentDoctor | appointment_service.py:111-117 | the corrected reschedule's write of the doctor: only that field of that appointment changes |
| Database.Store.DoctorAppointments | appointment_service.py:328-333 | the doctor query returns the matching appointments, or fails when the store cannot answer it |
| Database.Store.CollectPatientAppointments | database.py:93-98 | the loop collects exactly the patient's appointments that pass the filter |
| Database.Store.SelectPatientAppointments | database.py:93-103 | the query result is the filtered, ordered and limited list |
| Database.Store.GetPatientAppointments | database.py:90-106 | the patient's upcoming (or past) appointments in time order, cut to the first `limit` of them in that order |
| Calendar.StoredEventId | calendar_service.py:127 | an event id is read only from a string under `calendar_event_id` |
| Calendar.CalendarService.constructor | calendar_service.py:24-26 | a fresh calendar has made no calls |
| Calendar.CalendarService.CreateCalendarEvent | calendar_service.py:56-122 | no remote call without a doctor calendar or a known patient; otherwise one insert whose answer is returned |
| Calendar.CalendarService.UpdateCalendarEvent | calendar_service.py:124-170 | without a stored event id an event is created; an update needs only the doctor's calendar; an unknown (404) event is recreated, with no call when it cannot be placed; otherwise the event gets the status, start and end |
| Reminder.ConsumeAnswerAt | reminder_service.py:30-41 | reading after consumed answers is reading further into the script |
| Reminder.ConsumeConsume | reminder_service.py:30-41 | consuming twice is consuming the sum |
| Reminder.CallsUntilSuccess | reminder_service.py:30-41 | calls stop at the first success or at the cap: no answer before the last call is a success, and the last call succeeds unless the cap was reached |
| Reminder.CallsUntilSuccessByTwo | reminder_service.py:30-41 | stopping at the first success, taken two calls at a time, is one reminder's attempts, then the rest of the calls after two failures |
| Reminder.WhatsAppGateway.constructor | reminder_service.py:10-14 | a fresh gateway has sent nothing |
| Reminder.WhatsAppGateway.SendWhatsappReminder | reminder_service.py:16-41 | without credentials nothing is sent and the result is false; otherwise the result is true iff one of the first two gateway calls succeeds, and one call is made per attempt |
| Utils.ReplaceCharAppend | utils.py:84-87 | a single-character replace distributes over concatenation |
| Utils.ReplaceChainAppend | utils.py:84-87 | the chain of replaces distributes over concatenation |
| Utils.ReplaceCharAbsent | utils.py:84-87 | replacing an absent character changes nothing |
| Utils.ReplaceChainOfChar | utils.py:84-87 | on one character the chain gives that character's escape |
| Utils.ReplaceChainIsEscape | utils.py:84-87 | the four chained replaces equal escaping each character independently |
| Utils.EscapeNoBrackets | utils.py:86-87 | no `<` or `>` survives the escaping |
| Utils.EscapeQuotesEscaped | utils.py:84-85 | every quote and apostrophe in the result comes right after a backslash |
| Utils.EscapeLength | utils.py:84-87 | the result grows by one character per quote or apostrophe and three per angle bracket |
| Utils.SanitizeInput | utils.py:76-89 | empty input gives empty output; the result has no `<` or `>`; every quote is escaped; the length grows by one per quote and three per angle bracket |
| Utils.DeepMerge | utils.py:91-103 | the merged dictionary has both key sets; on a key only one side has, that side's value; on a shared key the second's value, except that two nested dictionaries are replaced by their own deep merge |
| Utils.DeepMergeSelf | utils.py:91-103 | merging a dictionary into itself changes nothing |
| Utils.DeepMergeAbsorbs | utils.py:91-103 | merging the same dictionary in a second time changes nothing |
| Utils.DeepMergeShallow | utils.py:91-103 | without nested dictionaries on both sides, the deep merge is the plain union with the second winning |
| Utils.ReadIntOf | utils.py:110 | a printed integer followed by a non-digit is read back |
| Utils.AfterHourWordOf | utils.py:116-118 | the hour word is skipped back over |
| Utils.ParseUnitsOfTail | utils.py:118 | hours followed by minutes read back as their sum in minutes |
| Utils.ParseHoursAndTail | utils.py:118 | the "H hour(s) M minutes" shape reads back as 60·H + M |
| Utils.ParseDurationOf | utils.py:109-118 | reading a duration starts with its leading number |
| Utils.WholeHoursRoundTrip | utils.py:115-116 | the "H hour(s)" shape reads back as 60·H minutes |
| Utils.HoursAndMinutesRoundTrip | utils.py:117-118 | the "H hour(s) M minutes" shape reads back exactly |
| Utils.FormatDurationRoundTrip | utils.py:105-118 | every formatted duration reads back as the same number of minutes |
| Utils.FormatDurationInjective | utils.py:105-118 | two different durations never format the same |
| Utils.IndexOf | utils.py:73 | the first occurrence of a character, or none |
| Utils.LastIndexOf | utils.py:73 | the last occurrence of a character, or none |
| Utils.EmailBodyOkIsMatch | utils.py:73-74 | the first-`@`/last-dot check accepts exactly the strings the whole pattern matches |
| Utils.ValidateEmailIsPattern | utils.py:66-74 | validate_email accepts exactly the strings the regular expression matches, including `re.match`'s `$` before one final newline |
| Utils.ValidEmailHasOneAt | utils.py:73-74 | an accepted address has exactly one `@`, with a non-empty part before it |
| Utils.MaskSensitiveData | utils.py:138-164 | sensitive strings become `[REDACTED]`; dictionary keys are kept, sensitive keys' values become `***MASKED***` and every other value is masked recursively; a list becomes the list of its masked items; other values are unchanged |
| Utils.MaskIdempotent | utils.py:138-164 | masking twice is masking once |
| Utils.MaskLeavesNoSecret | utils.py:138-164 | after masking, every string is a mask marker or contains none of the fields |
| Appointments.FirstConflict | appointment_service.py:286-294 | the first appointment overlapping the candidate, or none exactly when none overlaps |
| Appointments.FirstConflictAt | appointment_service.py:286-294 | the first overlapping appointment in list order is the one the walk jumps past |
| Appointments.WindowSlotsWellPlaced | appointment_service.py:277-305 | every slot of a window's walk lies inside the window, lasts the requested duration, overlaps no fetched appointment, and starts at least 15 minutes after the previous one |
| Appointments.WindowSlotsTake | appointment_service.py:296-302 | a candidate that collides with nothing is offered, and the walk resumes 15 minutes later |
| Appointments.WindowSlotsJump | appointment_service.py:286-294 | a colliding candidate is skipped straight to the end of the first appointment it collides with |
| Appointments.DaySlots | appointment_service.py:277-307 | the day's slots last the requested duration and overlap no fetched appointment |
| Appointments.DaySlotInWindow | appointment_service.py:277-282 | every slot lies inside one of the configured windows |
| Appointments.Weekday | appointment_service.py:251-254 | the weekday is between 0 (Monday) and 6 |
| Appointments.DayStart | appointment_service.py:263-264 | the day's midnight lies at most a day before the instant |
| Appointments.SlotsFor | appointment_service.py:236-311 | no slots for an unknown doctor, a day without windows or a failed query; otherwise slots of the requested duration that overlap no fetched appointment |
| Appointments.SlotsForInWindow | appointment_service.py:257-282 | every offered slot lies inside one of the doctor's windows for that weekday |
| Appointments.FirstFreeSlotOpensTheDay | appointment_service.py:277-301 | with no appointments, a 09:00-12:00 Monday gives 09:00-09:30 as its first slot |
| Appointments.BookedSlotIsSkipped | appointment_service.py:286-301 | an appointment at 09:00-09:30 conflicts with a 09:15 request, and the first offered slot is 09:30-10:00 |
| Appointments.NoConflictIsFree | appointment_service.py:314-346 | when the test passes, no stored appointment of the doctor of at most 30 minutes overlaps the request |
| Appointments.ConflictIsReal | appointment_service.py:336-344 | a reported conflict, while the query works, names a stored appointment of the doctor that overlaps |
| Appointments.ConflictMonotonic | appointment_service.py:314-346 | storing one more appointment never turns a conflict into a free slot |
| Appointments.SanitizedReason | appointment_service.py:34 | a non-empty reason is stored sanitised and without angle brackets; an empty one becomes none |
| Appointments.BookedMetadata | appointment_service.py:47-76 | the metadata gains the event id when there is one and the reminder warning when no reminder went out, and keeps every other key |
| Appointments.DeliveredIffLastCallSucceeds | appointment_service.py:55-68 | the reminder counts as delivered exactly when the last gateway call made succeeded |
| Appointments.DefaultRequestBooksHalfHour | models.py:48-56 | a request naming only patient, doctor and time is stored scheduled, from that time for 30 minutes, with no reason, notes or metadata |
| Appointments.ClosingNotesRecordAudit | appointment_service.py:171 | the audit line survives stripping whole |
| Appointments.ClosingNotesKeepHistory | appointment_service.py:171 | the earlier notes are kept in front of the audit line |
| Appointments.DefaultCancelAuditKept | appointment_service.py:171 | cancelling without a reason records "Cancelled: No reason provided" |
| Appointments.DefaultCompleteAuditKept | appointment_service.py:213 | completing without notes records "Completed: No notes provided" |
| Appointments.RescheduleCheck | appointment_service.py:120-125 | the reschedule check keeps patient and duration, with the new time and the target doctor |
| Appointments.RescheduleRoundTrip | appointment_service.py:106-135 | rescheduling away and back restores the scheduled appointment exactly |
| Appointments.Closed | appointment_service.py:169-177 | the closed appointment differs only in status and notes |
| Appointments.RescheduleKeepsOldDoctorAndOverlaps | appointment_service.py:111-135 | a reschedule to another doctor can pass the check yet leave the appointment overlapping one of its own doctor's |
| Appointments.AppointmentService.constructor | appointment_service.py:14 | the service works on the given store, calendar and gateway |
| Appointments.AppointmentService.GetAvailableSlots | appointment_service.py:236-311 | the slots the walk specifies; none when the query fails; none overlapping a stored appointment of the doctor that starts that day |
| Appointments.AppointmentService.GetAvailableSlotsWalk | appointment_service.py:277-307 | the loop over windows yields the specified slots |
| Appointments.AppointmentService.WalkWindow | appointment_service.py:278-305 | the while loop yields the window's specified slots |
| Appointments.AppointmentService.FindCollision | appointment_service.py:286-294 | the inner scan with its early exit finds the first appointment, in list order, that the candidate overlaps |
| Appointments.AppointmentService.HasSchedulingConflict | appointment_service.py:314-350 | the conflict test as specified; true whenever the query fails |
| Appointments.AppointmentService.ScheduleAppointment | appointment_service.py:16-83 | fails with no write and no outside call iff the doctor or patient is unknown or the request conflicts; otherwise stores the sanitised request with the event id and any reminder warning, makes one calendar insert when the doctor has a calendar, and the gateway receives exactly the reminder's calls to the patient's phone; never succeeds when the query fails |
| Appointments.AppointmentService.CommitBooking | appointment_service.py:41-76 | after the checks: one new appointment with the booked metadata, one calendar insert for it when the doctor has a calendar, and exactly the reminder's gateway calls to the patient's phone |
| Appointments.AppointmentService.RecordReminderWarning | appointment_service.py:70-76 | the stored appointment gains the reminder warning in its metadata, and nothing else changes |
| Appointments.AppointmentService.RecordCalendarEvent | appointment_service.py:44-53 | the appointment keeps the event id of the inserted event; the calendar receives exactly that one insert, or nothing when the doctor has no calendar |
| Appointments.AppointmentService.RescheduleAppointment | appointment_service.py:86-149 | succeeds iff the appointment is scheduled, a requested doctor exists and the check passes; writes the new time and status, the doctor staying the old one, then syncs the calendar event (an update with the new time when the event is known, otherwise the fallback insert); no write and no call on failure |
| Appointments.AppointmentService.RescheduleAppointmentMovingDoctor | appointment_service.py:86-149 | as above, but the appointment takes the target doctor and overlaps none of that doctor's other appointments of at most 30 minutes; the calendar sync is the same |
| Appointments.AppointmentService.CancelAppointment | appointment_service.py:152-191 | succeeds iff the appointment is scheduled; then it becomes cancelled with the audit line in its notes and its calendar event is synced (updated to cancelled when known, otherwise the fallback insert); otherwise nothing changes and no call is made |
| Appointments.AppointmentService.CompleteAppointment | appointment_service.py:194-233 | succeeds iff the appointment is scheduled; then it becomes completed with the audit line in its notes and its calendar event is synced (updated to completed when known, otherwise the fallback insert); otherwise nothing changes and no call is made |
| Appointments.AppointmentService.CloseAppointment | appointment_service.py:156-187 | the guarded write of status and notes shared by cancel and complete, followed by exactly the calendar sync of the closed appointment |
| Appointments.AppointmentService.CancelTwice | appointment_service.py:163-166 | a second cancel is always refused and writes nothing; the first one writes the cancellation, or nothing when it fails |
| Appointments.AppointmentService.SendReminders | appointment_service.py:55-68 | the reminder goes out iff one of the first four gateway answers is a success; the gateway receives exactly one call per answer up to and including the first success, at most four, and those answers are used up |
| Patients.MergedMetadataUnion | patient_service.py:188-190 | merged metadata holds every key of both records, with the primary's value on shared keys |
| Patients.AnnotatedFieldUpdate | patient_service.py:178-186 | the field loop as written can only copy the phone number |
| Patients.FieldUpdatePhone | patient_service.py:178-186 | the field loop sets a phone number only to the duplicate's |
| Patients.MergeAsWrittenLosesName | patient_service.py:178-193 | a primary without a name stays without one even when the duplicate has a name |
| Patients.FieldUpdateText | patient_service.py:178-186 | over distinct fields, each visited text field ends up as the primary's value unless it is falsy and the duplicate's is not |
| Patients.MergeAllFieldsFillsGaps | patient_service.py:176-193 | merging over every field fills name, email and birth date from the duplicate where the primary lacks them |
| Patients.Recent | patient_service.py:124-127 | the recent list keeps exactly the fetched appointments that start in the window, in fetched order (with RecentAppend and RecentSingle) |
| Patients.RecentAppend | patient_service.py:124-127 | the window filter keeps the fetched order: filtering a concatenation concatenates the filtered parts |
| Patients.RecentSingle | patient_service.py:124-127 | one fetched appointment is kept exactly when it starts in the window |
| Patients.CountStatus | patient_service.py:130-133 | a status count never exceeds the number of appointments |
| Patients.StatusCountsSum | patient_service.py:130-136 | the status counts add up to the total |
| Patients.LatestStart | patient_service.py:149 | the last visit is the latest start among the fetched appointments, and none when there are none |
| Patients.NextScheduled | patient_service.py:150-154 | the next appointment is a fetched one that is scheduled and not yet begun, and every fetched one before it is not; none exactly when no fetched one qualifies |
| Patients.RecentOfUpcomingIsNow | patient_service.py:121-127 | when only upcoming appointments are fetched, every recent one starts exactly now |
| Patients.RecentOfAllIsWindow | patient_service.py:121-127 | over all of a patient's appointments, the recent list is exactly those that started in the window |
| Patients.PatientService.constructor | patient_service.py:11 | the service works on the given store |
| Patients.PatientService.CreatePatient | patient_service.py:13-35 | an existing patient with the phone number is returned with no write; otherwise a new active patient is created; phone numbers stay unique |
| Patients.PatientService.UpdatePatient | patient_service.py:38-64 | an unknown patient gives `None` with no write; otherwise the update is applied |
| Patients.PatientService.MergePatients | patient_service.py:163-209 | fails with no write iff either patient is unknown; otherwise the primary gets the merge update over the phone number only, and the duplicate is retired |
| Patients.PatientService.MergePatientsAllFields | patient_service.py:163-209 | the same merge over every field; the primary's missing name and email are filled from the duplicate |
| Patients.PatientService.MergeOver | patient_service.py:176-202 | the loop builds the specified merge update, then the primary is updated and the duplicate retired |
| Patients.PatientService.CountByStatus | patient_service.py:130-133 | the counts map holds each occurring status with its number of occurrences |
| Patients.PatientService.GetPatientHistory | patient_service.py:104-160 | none for an unknown patient; otherwise the summary of the upcoming appointments fetched, whose recent list holds only appointments starting now |
| Patients.PatientService.GetPatientHistoryAllAppointments | patient_service.py:104-160 | the summary over all appointments; with at most 100 of them, every appointment of the patient in the window is listed as recent |
| KnowledgeBase.NamelessDoctorMatchesByIdOnly | knowledge_base/manager.py:35-36 | a doctor without a name is found only by id |
| KnowledgeBase.FullNameMatches | knowledge_base/manager.py:36 | a doctor is found by its own name |
| KnowledgeBase.HourLines | knowledge_base/manager.py:69-70 | one line per hours entry, in order |
| KnowledgeBase.ServiceLines | knowledge_base/manager.py:75-76 | one line per service, in order |
| KnowledgeBase.DoctorLines | knowledge_base/manager.py:81-84 | one line per doctor, in order, or failure iff some entry is incomplete |
| KnowledgeBase.AllFaqLines | knowledge_base/manager.py:95-97 | a question line then an answer line per FAQ, or failure iff some FAQ is incomplete |
| KnowledgeBase.ContextPromptFailsIff | knowledge_base/manager.py:79-97 | building the prompt fails iff a listed doctor or a listed FAQ lacks a key |
| KnowledgeBase.ContextPartsCount | knowledge_base/manager.py:61-97 | the prompt has four parts, one per hours entry, and each present section's header and lines |
| KnowledgeBase.ContextPromptOpening | knowledge_base/manager.py:62 | the prompt starts with the clinic's name, or "our clinic" |
| KnowledgeBase.ContextPromptListsHours | knowledge_base/manager.py:69-99 | each hours entry appears in the prompt with its day capitalised |
| KnowledgeBase.ContextPromptListsQuestions | knowledge_base/manager.py:93-99 | each FAQ of a prompt that could be built has a question, and that question appears in the prompt |
| KnowledgeBase.ContextPromptListsServices | knowledge_base/manager.py:73-76 | each listed service appears in the prompt as its own line |
| KnowledgeBase.ContextPromptListsDoctors | knowledge_base/manager.py:79-84 | each listed doctor of a prompt that could be built has name, specialty and bio, and its line appears in the prompt |
| KnowledgeBase.ContextPromptListsInsurance | knowledge_base/manager.py:87-90 | a present insurance list appears in the prompt as one comma-separated line |
| KnowledgeBase.KnowledgeBaseManager.constructor | knowledge_base/manager.py:7-10 | the manager keeps the loaded description |
| KnowledgeBase.KnowledgeBaseManager.GettersAgreeWithPrompt | knowledge_base/manager.py:40-99 | the hours, services, insurers and FAQ questions the getters hand out all appear in the prompt built from the same description |
| KnowledgeBase.KnowledgeBaseManager.GetDoctorInfo | knowledge_base/manager.py:29-38 | none when the list is absent or empty or nobody matches; otherwise the first doctor in list order that matches by id or by case-insensitive name |
| KnowledgeBase.KnowledgeBaseManager.GenerateContextPrompt | knowledge_base/manager.py:56-99 | the loops build exactly the specified prompt; an empty description gives "" |
| KnowledgeBase.KnowledgeBaseManager.AppendHours | knowledge_base/manager.py:69-70 | the loop appends the hours lines |
| KnowledgeBase.KnowledgeBaseManager.AppendServices | knowledge_base/manager.py:75-76 | the loop appends the service lines |
| KnowledgeBase.KnowledgeBaseManager.CollectDoctorLines | knowledge_base/manager.py:81-84 | the loop builds the doctors' lines, or fails on an incomplete entry |
| KnowledgeBase.KnowledgeBaseManager.CollectFaqLines | knowledge_base/manager.py:95-97 | the loop builds the FAQ lines, or fails on an incomplete entry |

## Left out

- **The doctor-appointments query.** `get_doctor_appointments` has no definition in database.py. It is modelled as a query with these semantics:
  - It returns the doctor's appointments whose scheduled time lies in the closed range.
  - It excludes the given id.
  - Results are in id order.
  - It returns appointments of every status, so a cancelled appointment still blocks its slot.
- Appointments.NoConflictIsFree: covers only existing appointments of at most 30 minutes. An appointment that started more than 30 minutes before the request is outside the query's range, even when it is still running.
- **Explicit `None` in updates.** Explicitly setting a field to `None` in a partial update is not modelled: `None` means "not set".
- **Timezones and calendar arithmetic.** Timestamps, timezones and `datetime.combine` are integer minute arithmetic here. `updated_at`/`created_at` are not modelled.
- **Calendar event contents.** The calendar event body (summary, attendees, reminders) and the reminder message text are formatting sent to outside services; only the calls and their outcomes are modelled. `delete_calendar_event` is not called by the core.
- **Exceptions from collaborators.** Exceptions other than a failing doctor query are not modelled: the store, calendar and gateway either answer or report failure.
- **The no-show rate.** In get_patient_history it is float division and rounding.
- Patients.PatientService.GetPatientHistory: one `now` is used for both the query and the next-appointment test, while the source reads the clock twice.
- **Concurrency.** The check-then-create race between concurrent bookings and the async scheduling are not modelled; every operation is sequential.
- **Not part of this model:**
  - main.py (HTTP routes, webhooks, audio, language-model calls)
  - services/ai_service.py
  - config.py
  - the calendar credentials and token files
  - utils.py's phone-number helpers, `parse_datetime`, `generate_reference_id` and the environment getters
  - the knowledge base's file loading
- **E-mail type of patient records.** The `email` field of a patient record is declared as `EmailStr` (models.py:21), whose validation is done by an outside library. The model keeps it as an optional string and does not check it; `validate_email` in utils.py is modelled separately.
- **Phone validation on construction.** The phone-number validator (models.py:27-32) runs when a request or record object is built. The model states it as a store invariant and as a precondition of creating and updating patients.
- **Request defaults.** The field defaults of a patient creation request are not modelled as a function of their own; the defaults of an appointment request are (`NewAppointmentCreate`).
- **Mutating the caller's request.** Booking overwrites the reason of the caller's request object (appointment_service.py:34), and creating a patient sets its status on the caller's object (patient_service.py:25). The model builds new values instead, so the caller's object is unchanged and aliasing of request objects is not captured.
- **Casing.** Lower and upper casing is ASCII only; Unicode case mapping is not modelled.
- **Constructor side effects.** The knowledge base constructor's directory creation is not modelled.
- **Record shapes.** A knowledge-base value that is not a string where the prompt expects one, and a metadata value that is not JSON-like, are not modelled.
- **Enum typo.** models.py:17 ends in a stray `n` after `"no_show"`, which Python would reject. It is modelled as the evidently intended five-member enumeration.

## Findings

| source | as written | input that shows it | evidently intended | confidence | as-written member | corrected member |
|---|---|---|---|---|---|---|
| appointment_service.py:268-272,328-333 | `db.get_doctor_appointments` is called but database.py defines no such method. Every call raises, the conflict test reports a conflict, and the slot list is empty | any booking request, any slot query | a working doctor-appointments query | not executed | Appointments.AppointmentService.ScheduleAppointment | Database.Store.DoctorAppointments |
| appointment_service.py:111-135 | the new doctor is checked for conflicts, but `AppointmentUpdate` has no `doctor_id` field, so the appointment keeps its old doctor | doctor "a" has appointments at 10:00 and 15:00 (30 min each); reschedule the 15:00 one to 10:00 with doctor "b" | the appointment moves to the doctor it was checked against | not executed | Appointments.RescheduleKeepsOldDoctorAndOverlaps | Appointments.AppointmentService.RescheduleAppointmentMovingDoctor |
| patient_service.py:121-127 | history fetches upcoming appointments only (time ≥ now), then keeps those with time ≤ now, so "recent" holds only appointments starting exactly now | a patient whose only appointment was yesterday: recent list empty | recent = appointments of the last `days` days | not executed | Patients.RecentOfUpcomingIsNow | Patients.RecentOfAllIsWindow |
| patient_service.py:178-186 | the merge loop ranges over `PatientUpdate.__annotations__`, which holds only `phone_number` (models.py:37-38), so name, email and birth date are never filled | primary without a name, duplicate named "Ana": the merged primary still has no name | every field of the record is considered | not executed | Patients.MergeAsWrittenLosesName | Patients.MergeAllFieldsFillsGaps |
