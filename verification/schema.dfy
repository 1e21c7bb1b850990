/** The records of `models/schema.py` and how pydantic builds them: from
    keyword arguments, where a required field that is not supplied makes the
    constructor raise and an optional one takes its default, and from a dict
    (`Model(**d)`), where every required key must be present and extra keys
    are ignored. A raised validation error is a `Failure` carrying the names
    of the missing fields. */
module Schema {
  import opened Common

  datatype Education = Education(universityName: string, period: string, location: string, degree: string)

  datatype EmploymentHistory = EmploymentHistory(companyName: string, period: string, location: string)

  datatype ProfileData = ProfileData(
    name: string,
    title: string,
    email: string,
    phone: string,
    location: string,
    linkedin: Option<string>,
    education: seq<Education>,
    employmentHistory: seq<EmploymentHistory>)

  /** The `ResumeData` of `models/schema.py`: unlike the resume the matcher
      produces, it has no experiences, employment history or skills. */
  datatype ResumeData = ResumeData(
    name: string,
    title: string,
    email: string,
    phone: string,
    location: string,
    linkedin: Option<string>,
    summary: string,
    education: seq<Education>)

  /** Names of the fields pydantic reports when they are missing. */
  const EducationFields: set<string> := {"university_name", "period", "location", "degree"}
  const EmploymentFields: set<string> := {"company_name", "period", "location"}
  const ProfileRequiredFields: set<string> := {"name", "title", "email", "phone", "location"}

  /** `education.model_dump()`: a dict keyed by the field names. */
  function EducationToDict(e: Education): (d: map<string, string>)
    ensures d.Keys == EducationFields
  {
    map["university_name" := e.universityName, "period" := e.period,
        "location" := e.location, "degree" := e.degree]
  }

  /** `Education(**d)`. */
  function EducationFromDict(d: map<string, string>): (r: Result<Education, set<string>>)
    ensures r.Success? <==> EducationFields <= d.Keys
    ensures r.Success? ==> forall f :: f in EducationFields ==> EducationToDict(r.value)[f] == d[f]
    ensures r.Failure? ==> r.error != {} && forall f :: f in r.error <==> f in EducationFields && f !in d
  {
    if !(EducationFields <= d.Keys) then
      var f :| f in EducationFields && f !in d.Keys;
      assert f in EducationFields - d.Keys;
      Failure(EducationFields - d.Keys)
    else Success(Education(d["university_name"], d["period"], d["location"], d["degree"]))
  }

  /** `job.model_dump()` for an employment-history entry. */
  function EmploymentToDict(h: EmploymentHistory): (d: map<string, string>)
    ensures d.Keys == EmploymentFields
  {
    map["company_name" := h.companyName, "period" := h.period, "location" := h.location]
  }

  /** `EmploymentHistory(**d)`. */
  function EmploymentFromDict(d: map<string, string>): (r: Result<EmploymentHistory, set<string>>)
    ensures r.Success? <==> EmploymentFields <= d.Keys
    ensures r.Success? ==> forall f :: f in EmploymentFields ==> EmploymentToDict(r.value)[f] == d[f]
    ensures r.Failure? ==> r.error != {} && forall f :: f in r.error <==> f in EmploymentFields && f !in d
  {
    if !(EmploymentFields <= d.Keys) then
      var f :| f in EmploymentFields && f !in d.Keys;
      assert f in EmploymentFields - d.Keys;
      Failure(EmploymentFields - d.Keys)
    else Success(EmploymentHistory(d["company_name"], d["period"], d["location"]))
  }

  /** `Education` has exactly four required fields and `EmploymentHistory`
      exactly three, and a dumped record is rebuilt unchanged from its dict. */
  lemma DictRoundTrip(e: Education, h: EmploymentHistory)
    ensures |EducationFields| == 4 && |EmploymentFields| == 3
    ensures EducationFromDict(EducationToDict(e)) == Success(e)
    ensures EmploymentFromDict(EmploymentToDict(h)) == Success(h)
  {
  }

  /** The keyword arguments of a `ProfileData(...)` call; `None` means the
      argument was not passed. */
  datatype ProfileArgs = ProfileArgs(
    name: Option<string>,
    title: Option<string>,
    email: Option<string>,
    phone: Option<string>,
    location: Option<string>,
    linkedin: Option<Option<string>>,
    education: Option<seq<Education>>,
    employmentHistory: Option<seq<EmploymentHistory>>)

  /** The required field named `f` was passed. */
  predicate Supplied(args: ProfileArgs, f: string) {
    match f
    case "name" => args.name.Some?
    case "title" => args.title.Some?
    case "email" => args.email.Some?
    case "phone" => args.phone.Some?
    case "location" => args.location.Some?
    case _ => true
  }

  /** `ProfileData(**args)`: name, title, email, phone and location are
      required; linkedin defaults to `None`, education and employment history
      to empty lists. */
  function NewProfile(args: ProfileArgs): (r: Result<ProfileData, set<string>>)
    ensures r.Success? <==>
      args.name.Some? && args.title.Some? && args.email.Some? && args.phone.Some? && args.location.Some?
    ensures r.Failure? ==> r.error != {} && forall f :: f in r.error <==> f in ProfileRequiredFields && !Supplied(args, f)
    ensures r.Success? ==>
      && r.value.name == args.name.value && r.value.title == args.title.value
      && r.value.email == args.email.value && r.value.phone == args.phone.value
      && r.value.location == args.location.value
    ensures r.Success? ==>
      && r.value.linkedin == args.linkedin.GetOr(None)
      && r.value.education == args.education.GetOr([])
      && r.value.employmentHistory == args.employmentHistory.GetOr([])
  {
    if args.name.Some? && args.title.Some? && args.email.Some? && args.phone.Some? && args.location.Some? then
      Success(ProfileData(
        args.name.value, args.title.value, args.email.value, args.phone.value, args.location.value,
        args.linkedin.GetOr(None), args.education.GetOr([]), args.employmentHistory.GetOr([])))
    else
      Failure(
        (if args.name.None? then {"name"} else {})
        + (if args.title.None? then {"title"} else {})
        + (if args.email.None? then {"email"} else {})
        + (if args.phone.None? then {"phone"} else {})
        + (if args.location.None? then {"location"} else {}))
  }
}
