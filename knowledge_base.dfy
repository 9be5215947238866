/**
 * The clinic knowledge base: the clinic's description (loaded once from a
 * JSON file), lookups of a doctor by id or name, and the context prompt that
 * introduces the clinic to the assistant. A key absent from the JSON file is
 * `None` here; keys this model does not interpret are kept as a set of names,
 * so that the "empty description" test stays exact.
 */
module KnowledgeBase {
  import opened Wrappers
  import opened Text

  /** One entry of the doctors list; each key may be absent. */
  datatype DoctorEntry = DoctorEntry(id: Option<string>, name: Option<string>, specialty: Option<string>, bio: Option<string>)

  /** One frequently asked question; each key may be absent. */
  datatype Faq = Faq(question: Option<string>, answer: Option<string>)

  /** The clinic description; `hours` keeps the JSON object's key order. */
  datatype ClinicInfo = ClinicInfo(
    clinicName: Option<string>,
    address: Option<string>,
    phone: Option<string>,
    hours: Option<seq<(string, string)>>,
    services: Option<seq<string>>,
    doctors: Option<seq<DoctorEntry>>,
    insuranceAccepted: Option<seq<string>>,
    faqs: Option<seq<Faq>>,
    otherKeys: set<string>)

  /** The description has no key at all (the file was missing or unreadable). */
  predicate IsEmpty(info: ClinicInfo)
  {
    info.clinicName.None? && info.address.None? && info.phone.None? && info.hours.None? && info.services.None?
    && info.doctors.None? && info.insuranceAccepted.None? && info.faqs.None? && info.otherKeys == {}
  }

  const EmptyClinicInfo: ClinicInfo := ClinicInfo(None, None, None, None, None, None, None, None, {})

  // ---------------------------------------------------------------------------
  // Doctor lookup
  // ---------------------------------------------------------------------------

  /**
   * The doctor matches the query: a non-empty id equal to the doctor's, or a
   * non-empty name contained, ignoring case, in the doctor's name (an absent
   * name reads as empty).
   */
  predicate DoctorMatches(d: DoctorEntry, doctorId: Option<string>, name: Option<string>)
  {
    (doctorId.Some? && doctorId.value != "" && d.id == doctorId)
    || (name.Some? && name.value != "" && Contains(Lower(d.name.GetOr("")), Lower(name.value)))
  }

  /** A doctor without a name is found by id only. */
  lemma NamelessDoctorMatchesByIdOnly(d: DoctorEntry, doctorId: Option<string>, name: Option<string>)
    requires d.name.None?
    ensures DoctorMatches(d, doctorId, name) <==> doctorId.Some? && doctorId.value != "" && d.id == doctorId
  {
    if name.Some? && name.value != "" {
      assert !Contains("", Lower(name.value));
    }
  }

  /** Every name query matches a doctor whose name it is, whatever the case of either. */
  lemma FullNameMatches(d: DoctorEntry, name: string)
    requires d.name == Some(name) && name != ""
    ensures DoctorMatches(d, None, Some(name))
  {
    ContainsAt(Lower(name), Lower(name), 0);
  }

  // ---------------------------------------------------------------------------
  // Context prompt, as functions
  // ---------------------------------------------------------------------------

  /** How Python renders an optional text value inside an f-string. */
  function Shown(v: Option<string>): string
  {
    if v.Some? then v.value else "None"
  }

  const DefaultClinicName: string := "our clinic"
  const HoursHeader: string := "\nOperating Hours:"
  const ServicesHeader: string := "\nServices we offer:"
  const DoctorsHeader: string := "\nOur Doctors:"
  const InsurancePrefix: string := "\nWe accept the following insurance: "
  const FaqHeader: string := "\nFrequently Asked Questions:"

  /** The four opening parts: clinic name, address, phone and the hours header. */
  function OpeningParts(info: ClinicInfo): (r: seq<string>)
    ensures |r| == 4 && r[3] == HoursHeader
  {
    ["You are an AI assistant for " + info.clinicName.GetOr(DefaultClinicName) + ".",
     "Clinic Address: " + Shown(info.address),
     "Phone: " + Shown(info.phone),
     HoursHeader]
  }

  function HourLine(entry: (string, string)): string
  {
    "- " + Capitalize(entry.0) + ": " + entry.1
  }

  function ServiceLine(service: string): string
  {
    "- " + service
  }

  /** A doctor's line, or `None` when the name, specialty or bio key is missing (a `KeyError`). */
  function DoctorLine(d: DoctorEntry): (r: Option<string>)
    ensures r.Some? <==> d.name.Some? && d.specialty.Some? && d.bio.Some?
  {
    if d.name.Some? && d.specialty.Some? && d.bio.Some? then
      Some("- " + d.name.value + " (" + d.specialty.value + "): " + d.bio.value)
    else None
  }

  /** An FAQ's two lines, or `None` when the question or answer key is missing. */
  function FaqLines(f: Faq): (r: Option<seq<string>>)
    ensures r.Some? <==> f.question.Some? && f.answer.Some?
    ensures r.Some? ==> |r.value| == 2
  {
    if f.question.Some? && f.answer.Some? then
      Some(["Q: " + f.question.value, "A: " + f.answer.value + "\n"])
    else None
  }

  function HourLines(hours: seq<(string, string)>): (r: seq<string>)
    ensures |r| == |hours|
    ensures forall i :: 0 <= i < |hours| ==> r[i] == HourLine(hours[i])
  {
    if hours == [] then [] else HourLines(hours[..|hours| - 1]) + [HourLine(hours[|hours| - 1])]
  }

  function ServiceLines(services: seq<string>): (r: seq<string>)
    ensures |r| == |services|
    ensures forall i :: 0 <= i < |services| ==> r[i] == ServiceLine(services[i])
  {
    if services == [] then [] else ServiceLines(services[..|services| - 1]) + [ServiceLine(services[|services| - 1])]
  }

  /** Every doctor has a complete entry. */
  predicate DoctorsComplete(ds: seq<DoctorEntry>)
  {
    forall i :: 0 <= i < |ds| ==> DoctorLine(ds[i]).Some?
  }

  predicate FaqsComplete(fs: seq<Faq>)
  {
    forall i :: 0 <= i < |fs| ==> FaqLines(fs[i]).Some?
  }

  /** The doctors' lines, in list order; `None` as soon as one entry is incomplete. */
  function DoctorLines(ds: seq<DoctorEntry>): (r: Option<seq<string>>)
    ensures r.Some? <==> DoctorsComplete(ds)
    ensures r.Some? ==> |r.value| == |ds| && forall i :: 0 <= i < |ds| ==> Some(r.value[i]) == DoctorLine(ds[i])
  {
    if ds == [] then Some([])
    else
      var init := DoctorLines(ds[..|ds| - 1]);
      var last := DoctorLine(ds[|ds| - 1]);
      assert forall i :: 0 <= i < |ds| - 1 ==> ds[..|ds| - 1][i] == ds[i];
      if init.None? || last.None? then None else Some(init.value + [last.value])
  }

  /** The FAQ lines, a question line then an answer line per FAQ; `None` as soon as one is incomplete. */
  function AllFaqLines(fs: seq<Faq>): (r: Option<seq<string>>)
    ensures r.Some? <==> FaqsComplete(fs)
    ensures r.Some? ==> |r.value| == 2 * |fs|
    ensures r.Some? ==> forall i :: 0 <= i < |fs| ==>
      r.value[2 * i] == "Q: " + fs[i].question.value && r.value[2 * i + 1] == "A: " + fs[i].answer.value + "\n"
  {
    if fs == [] then Some([])
    else
      var init := AllFaqLines(fs[..|fs| - 1]);
      var last := FaqLines(fs[|fs| - 1]);
      assert forall i :: 0 <= i < |fs| - 1 ==> fs[..|fs| - 1][i] == fs[i];
      if init.None? || last.None? then None else Some(init.value + last.value)
  }

  function ServicesSection(info: ClinicInfo): seq<string>
  {
    if info.services.Some? then [ServicesHeader] + ServiceLines(info.services.value) else []
  }

  function InsuranceSection(info: ClinicInfo): seq<string>
  {
    if info.insuranceAccepted.Some? then [InsurancePrefix + Join(info.insuranceAccepted.value, ", ")] else []
  }

  /** The FAQ section appears only for a present, non-empty list. */
  predicate HasFaqSection(info: ClinicInfo)
  {
    info.faqs.Some? && info.faqs.value != []
  }

  /** The parts of the prompt, in order; `None` for a description that makes the assembly raise. */
  function ContextParts(info: ClinicInfo): Option<seq<string>>
  {
    var doctors := if info.doctors.Some? then DoctorLines(info.doctors.value) else Some([]);
    var faqs := if HasFaqSection(info) then AllFaqLines(info.faqs.value) else Some([]);
    if doctors.None? || faqs.None? then None
    else Some(OpeningParts(info) + HourLines(info.hours.GetOr([])) + Sections(info, doctors.value, faqs.value))
  }

  function DoctorsSection(info: ClinicInfo, doctorLines: seq<string>): seq<string>
  {
    if info.doctors.Some? then [DoctorsHeader] + doctorLines else []
  }

  function FaqSection(info: ClinicInfo, faqLines: seq<string>): seq<string>
  {
    if HasFaqSection(info) then [FaqHeader] + faqLines else []
  }

  /** The optional sections after the hours lines, in order, given the doctor and FAQ lines. */
  function Sections(info: ClinicInfo, doctorLines: seq<string>, faqLines: seq<string>): seq<string>
  {
    ServicesSection(info) + (DoctorsSection(info, doctorLines) + (InsuranceSection(info) + FaqSection(info, faqLines)))
  }

  /** The prompt: empty for an empty description, otherwise the parts joined by newlines. */
  function ContextPrompt(info: ClinicInfo): Option<string>
  {
    if IsEmpty(info) then Some("")
    else
      var parts := ContextParts(info);
      if parts.None? then None else Some(Join(parts.value, "\n"))
  }

  /** Assembly fails exactly when a listed doctor or a listed FAQ lacks a key the prompt reads. */
  lemma ContextPromptFailsIff(info: ClinicInfo)
    ensures ContextPrompt(info).None? <==>
      !IsEmpty(info)
      && ((info.doctors.Some? && !DoctorsComplete(info.doctors.value))
          || (HasFaqSection(info) && !FaqsComplete(info.faqs.value)))
  {
  }

  /** The number of parts: four, one per hours entry, and each section's header and lines. */
  lemma ContextPartsCount(info: ClinicInfo)
    requires ContextParts(info).Some?
    ensures |ContextParts(info).value| ==
      4 + |info.hours.GetOr([])|
      + (if info.services.Some? then 1 + |info.services.value| else 0)
      + (if info.doctors.Some? then 1 + |info.doctors.value| else 0)
      + (if info.insuranceAccepted.Some? then 1 else 0)
      + (if HasFaqSection(info) then 1 + 2 * |info.faqs.value| else 0)
  {
  }

  /** The prompt opens with the clinic's name, or the default one. */
  lemma ContextPromptOpening(info: ClinicInfo)
    requires !IsEmpty(info) && ContextPrompt(info).Some?
    ensures var intro := "You are an AI assistant for " + info.clinicName.GetOr(DefaultClinicName) + ".";
      |intro| <= |ContextPrompt(info).value| && ContextPrompt(info).value[..|intro|] == intro
  {
    JoinStartsWithFirst(ContextParts(info).value, "\n");
  }

  /** The parts, once assembly succeeds, are the opening, the hours lines and the sections. */
  lemma ContextPartsShape(info: ClinicInfo) returns (rest: seq<string>)
    requires ContextParts(info).Some?
    ensures ContextParts(info).value == OpeningParts(info) + HourLines(info.hours.GetOr([])) + rest
  {
    var doctors := if info.doctors.Some? then DoctorLines(info.doctors.value) else Some([]);
    var faqs := if HasFaqSection(info) then AllFaqLines(info.faqs.value) else Some([]);
    rest := Sections(info, doctors.value, faqs.value);
  }

  /** The part right after the hours header and the entries before it is the entry's line. */
  lemma HourLineIsPart(info: ClinicInfo, i: nat)
    requires ContextParts(info).Some?
    requires info.hours.Some? && i < |info.hours.value|
    ensures ContextParts(info).value[4 + i] == HourLine(info.hours.value[i])
  {
    var rest := ContextPartsShape(info);
    var lines := HourLines(info.hours.value);
    MiddleIndex(OpeningParts(info), lines, rest, i);
  }

  lemma ConcatIndex(a: seq<string>, b: seq<string>, j: nat)
    requires j < |b|
    ensures (a + b)[|a| + j] == b[j]
  {
  }

  lemma MiddleIndex(a: seq<string>, b: seq<string>, c: seq<string>, i: nat)
    requires i < |b|
    ensures (a + b + c)[|a| + i] == b[i]
  {
  }

  /** Each operating-hours entry gets its line, day capitalised, right after the hours header. */
  lemma ContextPromptListsHours(info: ClinicInfo, i: nat)
    requires !IsEmpty(info) && ContextPrompt(info).Some?
    requires info.hours.Some? && i < |info.hours.value|
    ensures ContextParts(info).value[4 + i] == HourLine(info.hours.value[i])
    ensures Contains(ContextPrompt(info).value, "- " + Capitalize(info.hours.value[i].0) + ": " + info.hours.value[i].1)
  {
    var parts := ContextParts(info).value;
    assert ContextPrompt(info).value == Join(parts, "\n");
    HourLineIsPart(info, i);
    JoinContainsPart(parts, "\n", 4 + i);
  }

  /** The parts, once assembly succeeds, with the doctor and FAQ lines the sections are built from. */
  lemma ContextPartsSections(info: ClinicInfo) returns (dl: seq<string>, fl: seq<string>)
    requires ContextParts(info).Some?
    ensures ContextParts(info).value == OpeningParts(info) + HourLines(info.hours.GetOr([])) + Sections(info, dl, fl)
    ensures info.doctors.Some? ==> DoctorLines(info.doctors.value) == Some(dl)
    ensures HasFaqSection(info) ==> AllFaqLines(info.faqs.value) == Some(fl)
  {
    var doctors := if info.doctors.Some? then DoctorLines(info.doctors.value) else Some([]);
    var faqs := if HasFaqSection(info) then AllFaqLines(info.faqs.value) else Some([]);
    dl, fl := doctors.value, faqs.value;
  }

  /** Each part of a successfully assembled prompt occurs in it. */
  lemma PartInPrompt(info: ClinicInfo, k: nat)
    requires !IsEmpty(info) && ContextPrompt(info).Some?
    requires k < |ContextParts(info).value|
    ensures Contains(ContextPrompt(info).value, ContextParts(info).value[k])
  {
    JoinContainsPart(ContextParts(info).value, "\n", k);
  }

  /** Where a service's line sits among the sections. */
  lemma ServiceLineInSections(info: ClinicInfo, dl: seq<string>, fl: seq<string>, i: nat)
    requires info.services.Some? && i < |info.services.value|
    ensures 1 + i < |Sections(info, dl, fl)| && Sections(info, dl, fl)[1 + i] == ServiceLine(info.services.value[i])
  {
    var ss := ServicesSection(info);
    var tail := DoctorsSection(info, dl) + (InsuranceSection(info) + FaqSection(info, fl));
    ConcatIndex([ServicesHeader], ServiceLines(info.services.value), i);
    assert Sections(info, dl, fl) == ss + tail;
  }

  /** Where a doctor's line sits among the sections. */
  lemma DoctorLineInSections(info: ClinicInfo, dl: seq<string>, fl: seq<string>, i: nat) returns (x: nat)
    requires info.doctors.Some? && DoctorLines(info.doctors.value) == Some(dl) && i < |info.doctors.value|
    ensures DoctorLine(info.doctors.value[i]).Some?
    ensures x < |Sections(info, dl, fl)| && Sections(info, dl, fl)[x] == DoctorLine(info.doctors.value[i]).value
  {
    var ss := ServicesSection(info);
    var ds := DoctorsSection(info, dl);
    var tail := ds + (InsuranceSection(info) + FaqSection(info, fl));
    assert Some(dl[i]) == DoctorLine(info.doctors.value[i]);
    ConcatIndex([DoctorsHeader], dl, i);
    assert tail[1 + i] == ds[1 + i];
    assert Sections(info, dl, fl) == ss + tail;
    ConcatIndex(ss, tail, 1 + i);
    x := |ss| + 1 + i;
  }

  /** Where the insurance line sits among the sections. */
  lemma InsuranceLineInSections(info: ClinicInfo, dl: seq<string>, fl: seq<string>) returns (x: nat)
    requires info.insuranceAccepted.Some?
    ensures x < |Sections(info, dl, fl)|
    ensures Sections(info, dl, fl)[x] == InsurancePrefix + Join(info.insuranceAccepted.value, ", ")
  {
    var ss := ServicesSection(info);
    var ds := DoctorsSection(info, dl);
    var tail2 := InsuranceSection(info) + FaqSection(info, fl);
    var tail := ds + tail2;
    ConcatIndex(ds, tail2, 0);
    assert Sections(info, dl, fl) == ss + tail;
    ConcatIndex(ss, tail, |ds|);
    x := |ss| + |ds|;
  }

  /** Where an FAQ's question line sits among the sections. */
  lemma QuestionLineInSections(info: ClinicInfo, dl: seq<string>, fl: seq<string>, i: nat) returns (x: nat)
    requires HasFaqSection(info) && AllFaqLines(info.faqs.value) == Some(fl) && i < |info.faqs.value|
    ensures info.faqs.value[i].question.Some?
    ensures x < |Sections(info, dl, fl)| && Sections(info, dl, fl)[x] == "Q: " + info.faqs.value[i].question.value
  {
    var ss := ServicesSection(info);
    var ds := DoctorsSection(info, dl);
    var ins := InsuranceSection(info);
    var fs := FaqSection(info, fl);
    var tail2 := ins + fs;
    var tail := ds + tail2;
    var j := 1 + 2 * i;
    ConcatIndex([FaqHeader], fl, 2 * i);
    assert fs[j] == "Q: " + info.faqs.value[i].question.value;
    ConcatIndex(ins, fs, j);
    ConcatIndex(ds, tail2, |ins| + j);
    assert Sections(info, dl, fl) == ss + tail;
    ConcatIndex(ss, tail, |ds| + |ins| + j);
    x := |ss| + |ds| + |ins| + j;
  }

  /** The line at position `x` of the sections is a part of the prompt. */
  lemma SectionLineIsPart(info: ClinicInfo, dl: seq<string>, fl: seq<string>, x: nat) returns (k: nat)
    requires ContextParts(info).Some?
    requires ContextParts(info).value == OpeningParts(info) + HourLines(info.hours.GetOr([])) + Sections(info, dl, fl)
    requires x < |Sections(info, dl, fl)|
    ensures k < |ContextParts(info).value| && ContextParts(info).value[k] == Sections(info, dl, fl)[x]
  {
    var pre := OpeningParts(info) + HourLines(info.hours.GetOr([]));
    ConcatIndex(pre, Sections(info, dl, fl), x);
    k := |pre| + x;
  }

  /** Each FAQ of a non-empty list contributes its question line to the prompt. */
  lemma ContextPromptListsQuestions(info: ClinicInfo, i: nat)
    requires !IsEmpty(info) && ContextPrompt(info).Some?
    requires info.faqs.Some? && i < |info.faqs.value|
    ensures info.faqs.value[i].question.Some?
    ensures Contains(ContextPrompt(info).value, "Q: " + info.faqs.value[i].question.value)
  {
    var dl, fl := ContextPartsSections(info);
    var x := QuestionLineInSections(info, dl, fl, i);
    var k := SectionLineIsPart(info, dl, fl, x);
    PartInPrompt(info, k);
  }

  /** Each listed service gets its line in the prompt. */
  lemma ContextPromptListsServices(info: ClinicInfo, i: nat)
    requires !IsEmpty(info) && ContextPrompt(info).Some?
    requires info.services.Some? && i < |info.services.value|
    ensures Contains(ContextPrompt(info).value, "- " + info.services.value[i])
  {
    var dl, fl := ContextPartsSections(info);
    ServiceLineInSections(info, dl, fl, i);
    var k := SectionLineIsPart(info, dl, fl, 1 + i);
    PartInPrompt(info, k);
  }

  /** Each listed doctor gets its line, with name, specialty and bio, in the prompt. */
  lemma ContextPromptListsDoctors(info: ClinicInfo, i: nat)
    requires !IsEmpty(info) && ContextPrompt(info).Some?
    requires info.doctors.Some? && i < |info.doctors.value|
    ensures DoctorLine(info.doctors.value[i]).Some?
    ensures var d := info.doctors.value[i];
      Contains(ContextPrompt(info).value, "- " + d.name.value + " (" + d.specialty.value + "): " + d.bio.value)
  {
    var dl, fl := ContextPartsSections(info);
    var x := DoctorLineInSections(info, dl, fl, i);
    var k := SectionLineIsPart(info, dl, fl, x);
    PartInPrompt(info, k);
  }

  /** A present insurance list appears in the prompt as one comma-separated line. */
  lemma ContextPromptListsInsurance(info: ClinicInfo)
    requires !IsEmpty(info) && ContextPrompt(info).Some?
    requires info.insuranceAccepted.Some?
    ensures Contains(ContextPrompt(info).value, InsurancePrefix + Join(info.insuranceAccepted.value, ", "))
  {
    var dl, fl := ContextPartsSections(info);
    var x := InsuranceLineInSections(info, dl, fl);
    var k := SectionLineIsPart(info, dl, fl, x);
    PartInPrompt(info, k);
  }

  // ---------------------------------------------------------------------------
  // The manager
  // ---------------------------------------------------------------------------

  class KnowledgeBaseManager {
    /** The description read at construction. */
    const clinicInfo: ClinicInfo

    constructor(clinicInfo: ClinicInfo)
      ensures this.clinicInfo == clinicInfo
    {
      this.clinicInfo := clinicInfo;
    }

    function GetClinicInfo(): (r: ClinicInfo)
      ensures r == clinicInfo
    {
      clinicInfo
    }

    /** The operating hours, or none when the key is absent. */
    function GetOperatingHours(): (r: seq<(string, string)>)
      ensures clinicInfo.hours.Some? ==> r == clinicInfo.hours.value
      ensures clinicInfo.hours.None? ==> r == []
    {
      clinicInfo.hours.GetOr([])
    }

    function GetServices(): (r: seq<string>)
      ensures clinicInfo.services.Some? ==> r == clinicInfo.services.value
      ensures clinicInfo.services.None? ==> r == []
    {
      clinicInfo.services.GetOr([])
    }

    function GetInsuranceProviders(): (r: seq<string>)
      ensures clinicInfo.insuranceAccepted.Some? ==> r == clinicInfo.insuranceAccepted.value
      ensures clinicInfo.insuranceAccepted.None? ==> r == []
    {
      clinicInfo.insuranceAccepted.GetOr([])
    }

    function GetFaqs(): (r: seq<Faq>)
      ensures clinicInfo.faqs.Some? ==> r == clinicInfo.faqs.value
      ensures clinicInfo.faqs.None? ==> r == []
    {
      clinicInfo.faqs.GetOr([])
    }

    /**
     * What the getters hand out is what the prompt tells the assistant: every
     * hours entry, every service, the insurers' line and every FAQ question.
     */
    lemma GettersAgreeWithPrompt()
      requires !IsEmpty(GetClinicInfo()) && ContextPrompt(GetClinicInfo()).Some?
      ensures var p := ContextPrompt(GetClinicInfo()).value;
        && (forall i :: 0 <= i < |GetOperatingHours()| ==> Contains(p, HourLine(GetOperatingHours()[i])))
        && (forall i :: 0 <= i < |GetServices()| ==> Contains(p, ServiceLine(GetServices()[i])))
        && (clinicInfo.insuranceAccepted.Some? ==> Contains(p, InsurancePrefix + Join(GetInsuranceProviders(), ", ")))
        && (forall i :: 0 <= i < |GetFaqs()| ==> Contains(p, "Q: " + GetFaqs()[i].question.GetOr("")))
    {
      var info := clinicInfo;
      forall i | 0 <= i < |GetOperatingHours()| ensures Contains(ContextPrompt(info).value, HourLine(GetOperatingHours()[i])) {
        ContextPromptListsHours(info, i);
      }
      forall i | 0 <= i < |GetServices()| ensures Contains(ContextPrompt(info).value, ServiceLine(GetServices()[i])) {
        ContextPromptListsServices(info, i);
      }
      if info.insuranceAccepted.Some? {
        ContextPromptListsInsurance(info);
      }
      forall i | 0 <= i < |GetFaqs()| ensures Contains(ContextPrompt(info).value, "Q: " + GetFaqs()[i].question.GetOr("")) {
        ContextPromptListsQuestions(info, i);
      }
    }

    /**
     * The first doctor, in list order, matching the id or the name; `None`
     * when the list is absent or empty or nobody matches.
     */
    method GetDoctorInfo(doctorId: Option<string>, name: Option<string>) returns (r: Option<DoctorEntry>)
      ensures clinicInfo.doctors.None? || clinicInfo.doctors.value == [] ==> r.None?
      ensures r.None? ==>
        (clinicInfo.doctors.None?
         || forall i :: 0 <= i < |clinicInfo.doctors.value| ==> !DoctorMatches(clinicInfo.doctors.value[i], doctorId, name))
      ensures r.Some? ==>
        (clinicInfo.doctors.Some?
         && exists i :: 0 <= i < |clinicInfo.doctors.value| && clinicInfo.doctors.value[i] == r.value
              && DoctorMatches(r.value, doctorId, name)
              && forall j :: 0 <= j < i ==> !DoctorMatches(clinicInfo.doctors.value[j], doctorId, name))
    {
      if clinicInfo.doctors.None? || clinicInfo.doctors.value == [] {
        return None;
      }
      var ds := clinicInfo.doctors.value;
      var i := 0;
      while i < |ds|
        invariant 0 <= i <= |ds|
        invariant forall j :: 0 <= j < i ==> !DoctorMatches(ds[j], doctorId, name)
      {
        var d := ds[i];
        var byId := doctorId.Some? && doctorId.value != "" && d.id == doctorId;
        var byName := name.Some? && name.value != "" && Contains(Lower(d.name.GetOr("")), Lower(name.value));
        if byId || byName {
          return Some(d);
        }
        i := i + 1;
      }
      return None;
    }

    /** Builds the prompt part by part; `None` when a doctor or FAQ entry lacks a key. */
    method GenerateContextPrompt() returns (r: Option<string>)
      ensures r == ContextPrompt(clinicInfo)
      ensures IsEmpty(clinicInfo) ==> r == Some("")
    {
      if IsEmpty(clinicInfo) {
        return Some("");
      }
      var parts := OpeningParts(clinicInfo);
      parts := AppendHours(parts, clinicInfo.hours.GetOr([]));
      var servicePart: seq<string> := [];
      if clinicInfo.services.Some? {
        servicePart := AppendServices([ServicesHeader], clinicInfo.services.value);
      }
      assert servicePart == ServicesSection(clinicInfo);
      var doctorPart: seq<string> := [];
      ghost var doctorLines: seq<string> := [];
      if clinicInfo.doctors.Some? {
        var lines := CollectDoctorLines(clinicInfo.doctors.value);
        if lines.None? {
          return None;
        }
        doctorLines := lines.value;
        doctorPart := [DoctorsHeader] + lines.value;
      }
      assert doctorPart == DoctorsSection(clinicInfo, doctorLines);
      assert clinicInfo.doctors.Some? ==> DoctorLines(clinicInfo.doctors.value) == Some(doctorLines);
      var faqPart: seq<string> := [];
      ghost var faqLines: seq<string> := [];
      if HasFaqSection(clinicInfo) {
        var lines := CollectFaqLines(clinicInfo.faqs.value);
        if lines.None? {
          return None;
        }
        faqLines := lines.value;
        faqPart := [FaqHeader] + lines.value;
      }
      assert faqPart == FaqSection(clinicInfo, faqLines);
      assert HasFaqSection(clinicInfo) ==> AllFaqLines(clinicInfo.faqs.value) == Some(faqLines);
      var sections := servicePart + (doctorPart + (InsuranceSection(clinicInfo) + faqPart));
      assert sections == Sections(clinicInfo, doctorLines, faqLines);
      assert ContextParts(clinicInfo) == Some(parts + sections);
      r := Some(Join(parts + sections, "\n"));
    }

    static method AppendHours(parts: seq<string>, hours: seq<(string, string)>) returns (r: seq<string>)
      ensures r == parts + HourLines(hours)
    {
      r := parts;
      for i := 0 to |hours|
        invariant r == parts + HourLines(hours[..i])
      {
        assert hours[..i + 1][..i] == hours[..i];
        r := r + [HourLine(hours[i])];
      }
      assert hours[..|hours|] == hours;
    }

    static method AppendServices(parts: seq<string>, services: seq<string>) returns (r: seq<string>)
      ensures r == parts + ServiceLines(services)
    {
      r := parts;
      for i := 0 to |services|
        invariant r == parts + ServiceLines(services[..i])
      {
        assert services[..i + 1][..i] == services[..i];
        r := r + [ServiceLine(services[i])];
      }
      assert services[..|services|] == services;
    }

    static method CollectDoctorLines(ds: seq<DoctorEntry>) returns (r: Option<seq<string>>)
      ensures r == DoctorLines(ds)
    {
      var lines: seq<string> := [];
      for i := 0 to |ds|
        invariant DoctorLines(ds[..i]) == Some(lines)
      {
        assert ds[..i + 1][..i] == ds[..i];
        var line := DoctorLine(ds[i]);
        if line.None? {
          assert DoctorLines(ds[..i + 1]).None?;
          assert !DoctorsComplete(ds);
          return None;
        }
        lines := lines + [line.value];
      }
      assert ds[..|ds|] == ds;
      r := Some(lines);
    }

    static method CollectFaqLines(fs: seq<Faq>) returns (r: Option<seq<string>>)
      ensures r == AllFaqLines(fs)
    {
      var lines: seq<string> := [];
      for i := 0 to |fs|
        invariant AllFaqLines(fs[..i]) == Some(lines)
      {
        assert fs[..i + 1][..i] == fs[..i];
        var faq := fs[i];
        if faq.question.None? || faq.answer.None? {
          assert !FaqsComplete(fs);
          return None;
        }
        lines := lines + ["Q: " + faq.question.value, "A: " + faq.answer.value + "\n"];
      }
      assert fs[..|fs|] == fs;
      r := Some(lines);
    }
  }
}
