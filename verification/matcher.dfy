/** The resume assembly of `generate_tailored_resume`: the language model's
    answer is a parameter (`None` when any step before the return raises),
    and the model states what the code guarantees whatever that answer is.
    On success the identity fields, education and LinkedIn anchor come from
    `user_info` and each employer's company details are overwritten by index;
    on any failure the fixed three-entry fallback resume is built. */
module Matcher {
  import opened Common
  import Schema
  import Keywords
  import Summary

  datatype BulletPoint = BulletPoint(bulletPoint: string)

  datatype CompanyInfo = CompanyInfo(name: string, period: string, location: string)

  datatype Experience = Experience(companyInfo: CompanyInfo, jobTitle: string, bulletPoints: seq<BulletPoint>)

  datatype Skill = Skill(category: string, skillList: string)

  /** The `ResumeData` the matcher returns. Its `Education` and
      `EmploymentHistory` classes have the same fields as those of the
      schema module and are modelled by the same datatypes. */
  datatype ResumeData = ResumeData(
    name: string,
    title: string,
    email: string,
    phone: string,
    location: string,
    linkedin: Option<string>,
    summary: string,
    experiences: seq<Experience>,
    education: seq<Schema.Education>,
    employmentHistory: Option<seq<Schema.EmploymentHistory>>,
    skills: seq<Skill>)

  /** The `user_info` dict. A `None` string field is an absent key, which
      `user_info.get(key, "")` reads as `""`; `linkedin` is `None` when the
      key is absent or holds `None`. The education entries are the dicts
      `model_dump()` produced, an absent or empty list being the empty
      sequence. `employmentHistory` is `None` when the key is absent or holds
      `None`: `len(user_info['employment_history'])` then raises inside the
      `try`, which sends every such request to the fallback. */
  datatype UserInfo = UserInfo(
    name: Option<string>,
    title: Option<string>,
    email: Option<string>,
    phone: Option<string>,
    location: Option<string>,
    linkedin: Option<string>,
    education: seq<map<string, string>>,
    employmentHistory: Option<seq<map<string, string>>>)

  /** `ResumeMatcher.__init__`: the experience text when it is non-empty,
      else the contents of the experience file when a path is given, else
      `""`. The file's contents are a parameter. */
  function ExperienceData(experienceText: string, fileContents: Option<string>): (r: string)
    ensures experienceText != "" ==> r == experienceText
    ensures experienceText == "" && fileContents.Some? ==> r == fileContents.value
    ensures experienceText == "" && fileContents.None? ==> r == ""
  {
    if experienceText != "" then experienceText else fileContents.GetOr("")
  }

  /** The identity fields of `r` are those of `user_info`, `""` where a key
      is absent. */
  predicate IdentityFrom(user: UserInfo, r: ResumeData) {
    && r.name == user.name.GetOr("")
    && r.title == user.title.GetOr("")
    && r.email == user.email.GetOr("")
    && r.phone == user.phone.GetOr("")
    && r.location == user.location.GetOr("")
  }

  /** `job["company_name"]`, `job["period"]` and `job["location"]` read into
      a `CompanyInfo`; a missing key raises `KeyError`. The three values are
      exactly those of the employment record the same dict builds. */
  function CompanyFromDict(job: map<string, string>): (r: Option<CompanyInfo>)
    ensures r.Some? <==> Schema.EmploymentFields <= job.Keys
    ensures r.Some? ==>
      Schema.EmploymentFromDict(job) == Success(Schema.EmploymentHistory(r.value.name, r.value.period, r.value.location))
  {
    if !(Schema.EmploymentFields <= job.Keys) then None
    else Some(CompanyInfo(job["company_name"], job["period"], job["location"]))
  }

  /** Number of experiences the override loop rewrites: it stops at the end
      of the employment list or when the index passes the last experience. */
  function Overlap(exps: seq<Experience>, hist: seq<map<string, string>>): (n: nat)
    ensures n <= |exps| && n <= |hist|
    ensures n == |exps| || n == |hist|
  {
    if |exps| < |hist| then |exps| else |hist|
  }

  /** The override loop from index `i` on. It fails exactly when a dict it
      reaches lacks a key; otherwise the experience at each index it reaches
      takes its company details from the dict at that index, and nothing
      else changes. */
  function OverrideFrom(exps: seq<Experience>, hist: seq<map<string, string>>, i: nat): (r: Option<seq<Experience>>)
    requires i <= Overlap(exps, hist)
    ensures r.Some? <==> forall k :: i <= k < Overlap(exps, hist) ==> Schema.EmploymentFields <= hist[k].Keys
    ensures r.Some? ==> |r.value| == |exps|
    ensures r.Some? ==> forall k :: 0 <= k < |exps| ==>
      r.value[k].jobTitle == exps[k].jobTitle && r.value[k].bulletPoints == exps[k].bulletPoints
    ensures r.Some? ==> forall k :: 0 <= k < |exps| && (k < i || Overlap(exps, hist) <= k) ==> r.value[k] == exps[k]
    ensures r.Some? ==> forall k :: i <= k < Overlap(exps, hist) ==> CompanyFromDict(hist[k]) == Some(r.value[k].companyInfo)
    decreases Overlap(exps, hist) - i
  {
    if i == Overlap(exps, hist) then Some(exps)
    else
      match CompanyFromDict(hist[i])
      case None => None
      case Some(c) => OverrideFrom(exps[i := exps[i].(companyInfo := c)], hist, i + 1)
  }

  /** The override loop over the whole employment list. */
  function OverrideCompanies(exps: seq<Experience>, hist: seq<map<string, string>>): (r: Option<seq<Experience>>)
    ensures r.Some? <==> forall k :: 0 <= k < Overlap(exps, hist) ==> Schema.EmploymentFields <= hist[k].Keys
    ensures r.Some? ==> |r.value| == |exps|
    ensures r.Some? ==> forall k :: 0 <= k < |exps| ==>
      r.value[k].jobTitle == exps[k].jobTitle && r.value[k].bulletPoints == exps[k].bulletPoints
    ensures r.Some? ==> forall k :: Overlap(exps, hist) <= k < |exps| ==> r.value[k] == exps[k]
    ensures r.Some? ==> forall k :: 0 <= k < Overlap(exps, hist) ==> CompanyFromDict(hist[k]) == Some(r.value[k].companyInfo)
  {
    OverrideFrom(exps, hist, 0)
  }

  /** Running the override a second time with the same employment list
      changes nothing. */
  lemma {:induction false} OverrideIdempotent(exps: seq<Experience>, hist: seq<map<string, string>>)
    requires OverrideCompanies(exps, hist).Some?
    ensures OverrideCompanies(OverrideCompanies(exps, hist).value, hist) == OverrideCompanies(exps, hist)
  {
    var once := OverrideCompanies(exps, hist).value;
    assert Overlap(once, hist) == Overlap(exps, hist);
    var twice := OverrideCompanies(once, hist);
    assert twice.Some?;
    forall k | 0 <= k < |once| ensures twice.value[k] == once[k] {
      if k < Overlap(exps, hist) {
        assert CompanyFromDict(hist[k]) == Some(once[k].companyInfo);
        assert twice.value[k].companyInfo == once[k].companyInfo;
      }
    }
    assert twice.value == once;
  }

  /** `[Education(**edu) for edu in user_info["education"]]`: fails when some
      dict lacks a field, and otherwise holds the records the dicts build, in
      order. */
  function EducationList(dicts: seq<map<string, string>>): (r: Option<seq<Schema.Education>>)
    ensures r.Some? <==> forall k :: 0 <= k < |dicts| ==> Schema.EducationFields <= dicts[k].Keys
    ensures r.Some? ==> |r.value| == |dicts|
    ensures r.Some? ==> forall k :: 0 <= k < |dicts| ==> Schema.EducationFromDict(dicts[k]) == Success(r.value[k])
  {
    if |dicts| == 0 then Some([])
    else
      match Schema.EducationFromDict(dicts[0])
      case Failure(_) => None
      case Success(e) =>
        match EducationList(dicts[1..])
        case None => None
        case Some(rest) => Some([e] + rest)
  }

  /** Dumping education records to dicts and rebuilding them gives the same
      list back. */
  lemma {:induction false} EducationListRoundTrip(es: seq<Schema.Education>)
    ensures EducationList(seq(|es|, k requires 0 <= k < |es| => Schema.EducationToDict(es[k]))) == Some(es)
  {
    var dicts := seq(|es|, k requires 0 <= k < |es| => Schema.EducationToDict(es[k]));
    forall k | 0 <= k < |es| ensures Schema.EducationFromDict(dicts[k]) == Success(es[k]) {
      Schema.DictRoundTrip(es[k], Schema.EmploymentHistory("", "", ""));
    }
    var r := EducationList(dicts);
    assert r.Some?;
    assert r.value == es;
  }

  const AnchorOpen: string := "<a href=\""
  const AnchorClose: string := "\">LinkedIn</a>"

  /** The `linkedin_profile` string: an HTML anchor around the URL when the
      URL is present and non-empty, else `""`. */
  function LinkedInAnchor(linkedin: Option<string>): (r: string)
    ensures r == "" <==> linkedin.None? || linkedin.value == ""
    ensures r != "" ==> |r| == |AnchorOpen| + |linkedin.value| + |AnchorClose|
  {
    if linkedin.Some? && linkedin.value != "" then AnchorOpen + linkedin.value + AnchorClose else ""
  }

  /** The URL inside a string shaped like `LinkedInAnchor`'s result. */
  function AnchorUrl(a: string): (url: Option<string>)
    ensures url.Some? ==> |AnchorOpen| + |url.value| + |AnchorClose| == |a|
  {
    if |AnchorOpen| + |AnchorClose| <= |a| && a[..|AnchorOpen|] == AnchorOpen && a[|a| - |AnchorClose|..] == AnchorClose
    then Some(a[|AnchorOpen|..|a| - |AnchorClose|])
    else None
  }

  /** The anchor keeps the URL: it can be read back out, and no anchor is
      built for a missing or empty URL. */
  lemma AnchorRoundTrip(linkedin: Option<string>)
    ensures linkedin.Some? && linkedin.value != "" ==> AnchorUrl(LinkedInAnchor(linkedin)) == linkedin
    ensures linkedin.None? || linkedin.value == "" ==> AnchorUrl(LinkedInAnchor(linkedin)).None?
  {
    if linkedin.Some? && linkedin.value != "" {
      var a := LinkedInAnchor(linkedin);
      assert a[..|AnchorOpen|] == AnchorOpen;
      assert a[|a| - |AnchorClose|..] == AnchorClose;
      assert a[|AnchorOpen|..|a| - |AnchorClose|] == linkedin.value;
    }
  }

  /** `r` is the primary-path resume for `user` and the model's answer `g`. */
  predicate PrimaryShape(user: UserInfo, g: ResumeData, r: ResumeData) {
    && IdentityFrom(user, r)
    && r.linkedin == Some(LinkedInAnchor(user.linkedin))
    && r.summary == g.summary
    && r.skills == g.skills
    && r.employmentHistory == Some([])
    && user.employmentHistory.Some?
    && OverrideCompanies(g.experiences, user.employmentHistory.value) == Some(r.experiences)
    && EducationList(user.education) == Some(r.education)
  }

  /** The steps of the `try` block around the model call that depend on
      `user_info`: fails exactly when the employment history is missing, or
      an employment dict the override loop reaches or an education dict
      lacks a key, and otherwise builds the resume from `user_info` and the
      answer's summary, experiences and skills. */
  function PrimaryResume(user: UserInfo, g: ResumeData): (r: Option<ResumeData>)
    ensures r.Some? <==>
      && user.employmentHistory.Some?
      && (forall k :: 0 <= k < Overlap(g.experiences, user.employmentHistory.value) ==>
            Schema.EmploymentFields <= user.employmentHistory.value[k].Keys)
      && (forall k :: 0 <= k < |user.education| ==> Schema.EducationFields <= user.education[k].Keys)
    ensures r.Some? ==> PrimaryShape(user, g, r.value)
  {
    if user.employmentHistory.None? then None
    else
      match OverrideCompanies(g.experiences, user.employmentHistory.value)
      case None => None
      case Some(exps) =>
        match EducationList(user.education)
        case None => None
        case Some(edu) =>
          Some(ResumeData(
            user.name.GetOr(""), user.title.GetOr(""), user.email.GetOr(""), user.phone.GetOr(""),
            user.location.GetOr(""), Some(LinkedInAnchor(user.linkedin)), g.summary, exps, edu,
            Some([]), g.skills))
  }

  /** What the model answers for the identity fields, LinkedIn, education
      and employment history never reaches the result. */
  lemma PrimaryIgnoresAnswerIdentity(user: UserInfo, g1: ResumeData, g2: ResumeData)
    requires g1.summary == g2.summary && g1.experiences == g2.experiences && g1.skills == g2.skills
    ensures PrimaryResume(user, g1) == PrimaryResume(user, g2)
  {
  }

  /** The three placeholder experiences of the fallback. */
  const FixedExperiences: seq<Experience> := [
    Experience(
      CompanyInfo("Tech Innovators Inc.", "01/2021 - 05/2025", "New York, NY"),
      "Senior AI Engineer",
      [
        BulletPoint("Engineered a supervisor-orchestrated multi-agent system on Azure, leveraging LangGraph's stateful execution capabilities, reducing data engineering development time by 40%."),
        BulletPoint("Fused agent systems with Azure OpenAI Service for sophisticated natural language understanding, enabling automated translation of Jira issues into optimized data pipeline code."),
        BulletPoint("Implemented multi-stage code validation within the LangGraph framework, incorporating unit tests and integration tests, reducing manual code review overhead by 70%."),
        BulletPoint("Enhanced contextual awareness by creating GraphRAG systems using Neo4j integrated with Azure AI Search, resulting in an 18% improvement in code generation accuracy."),
        BulletPoint("Defined and codified reusable domain-specific process definition libraries (PDLs) for rapid instantiation of pre-configured, industry-tailored agent workflows.")
      ]),
    Experience(
      CompanyInfo("Intelligent Solutions Group", "06/2018 - 12/2020", "San Francisco, CA"),
      "Technology Architecture Lead",
      [
        BulletPoint("Led architectural design and development of complex multi-agent AI systems using CrewAI and LangChain, enabling autonomous decision-making, resulting in 25% improvement in first-call resolution rates."),
        BulletPoint("Designed and implemented agent communication protocols using gRPC and RabbitMQ, ensuring robust and scalable inter-agent communication within customer service platforms."),
        BulletPoint("Developed belief-desire-intention (BDI) agent architectures within the CrewAI framework, optimizing for rapid response times and accurate information retrieval."),
        BulletPoint("Orchestrated deployment of agentic AI solutions on Microsoft Azure using Kubernetes and AKS, ensuring scalability and fault tolerance."),
        BulletPoint("Provided technical leadership to a team of 9 AI engineers, fostering expertise in agent-based modeling and multi-agent system design.")
      ]),
    Experience(
      CompanyInfo("Communication Systems Inc.", "01/2016 - 05/2018", "Boston, MA"),
      "Python Developer",
      [
        BulletPoint("Developed robust backend systems using Python and Flask framework to automate configuration and management of contact center deployments, streamlining setup processes."),
        BulletPoint("Integrated systems with programmable communications APIs via RESTful interfaces, enabling programmatic control over contact center features and workflows."),
        BulletPoint("Implemented core automation logic using Python, leveraging requests library for API interaction and SQLAlchemy for database operations."),
        BulletPoint("Designed and implemented message queue-based task management systems using RabbitMQ and pika, enabling asynchronous processing of configuration tasks."),
        BulletPoint("Created comprehensive testing suites using pytest, achieving 92% code coverage and reducing production incidents by 35%.")
      ])
  ]

  /** `_legacy_generate_tailored_resume`: the keyword-based summary of the
      experience text, the fixed experiences, and no education, employment
      history or skills; LinkedIn is passed through unwrapped. */
  function LegacyResume(jobDescription: string, experienceData: string, user: UserInfo): (r: ResumeData)
    ensures IdentityFrom(user, r)
    ensures r.linkedin == user.linkedin
    ensures r.experiences == FixedExperiences && |r.experiences| == 3
    ensures r.education == [] && r.employmentHistory == Some([]) && r.skills == []
    ensures Summary.MinSummaryLength <= |r.summary| <= Summary.MaxSummaryLength + Summary.MaxSections - 1
  {
    var keywords := Keywords.ExtractKeywords(jobDescription);
    ResumeData(
      user.name.GetOr(""), user.title.GetOr(""), user.email.GetOr(""), user.phone.GetOr(""),
      user.location.GetOr(""), user.linkedin, Summary.GenerateSummary(experienceData, keywords),
      FixedExperiences, [], Some([]), [])
  }

  /** `generate_tailored_resume`. `generated` is the model's parsed answer,
      `None` when the skill extraction or the parse call raises or the
      answer is missing. Whichever path is taken, the identity fields come
      from `user_info` and the employment history is empty; without an
      employment history in `user_info` the fallback is always taken. */
  function GenerateTailoredResume(jobDescription: string, experienceData: string, user: UserInfo, generated: Option<ResumeData>): (r: ResumeData)
    ensures IdentityFrom(user, r)
    ensures r.employmentHistory == Some([])
    ensures generated.Some? && PrimaryResume(user, generated.value).Some? ==> PrimaryShape(user, generated.value, r)
    ensures generated.None? || PrimaryResume(user, generated.value).None? ==>
      r.experiences == FixedExperiences && r.education == [] && r.skills == [] && r.linkedin == user.linkedin
    ensures generated.None? || PrimaryResume(user, generated.value).None? ==>
      r == LegacyResume(jobDescription, experienceData, user)
    ensures user.employmentHistory.None? ==> r == LegacyResume(jobDescription, experienceData, user)
  {
    if generated.Some? && PrimaryResume(user, generated.value).Some? then PrimaryResume(user, generated.value).value
    else LegacyResume(jobDescription, experienceData, user)
  }

  /** The result's LinkedIn is the anchor on the primary path and the raw
      value on the fallback; so it is absent only on the fallback, and only
      when `user_info` has none. */
  lemma LinkedInForms(jobDescription: string, experienceData: string, user: UserInfo, generated: Option<ResumeData>)
    ensures var r := GenerateTailoredResume(jobDescription, experienceData, user, generated);
      r.linkedin == Some(LinkedInAnchor(user.linkedin)) || r.linkedin == user.linkedin
    ensures GenerateTailoredResume(jobDescription, experienceData, user, generated).linkedin.None? ==> user.linkedin.None?
  {
  }

  /** Without an answer from the model the experience count is three, the
      summary is drawn from the matcher's experience text (the constructor's
      text, else the file's contents), and no summary is shorter than the
      padding minimum. */
  lemma FallbackShape(jobDescription: string, experienceText: string, fileContents: Option<string>, user: UserInfo)
    ensures var r := GenerateTailoredResume(jobDescription, ExperienceData(experienceText, fileContents), user, None);
      && |r.experiences| == 3
      && r.summary == Summary.GenerateSummary(ExperienceData(experienceText, fileContents), Keywords.ExtractKeywords(jobDescription))
      && (experienceText != "" ==> r.summary == Summary.GenerateSummary(experienceText, Keywords.ExtractKeywords(jobDescription)))
      && Summary.MinSummaryLength <= |r.summary|
  {
  }
}
