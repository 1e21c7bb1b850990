/** The merge data `generate_resume` hands to the document template: the
    resume's full `model_dump()`, plus a flattened copy of the employment
    history and of the experiences when the resume has them. JSON values
    are a datatype; key order is not modelled. */
module MergePayload {
  import opened Common
  import Schema
  import Matcher

  datatype Json = JNull | JString(str: string) | JList(items: seq<Json>) | JObject(fields: map<string, Json>)

  function DumpString(s: Option<string>): Json {
    if s.Some? then JString(s.value) else JNull
  }

  function DumpEducation(e: Schema.Education): Json {
    JObject(map["university_name" := JString(e.universityName), "period" := JString(e.period),
                "location" := JString(e.location), "degree" := JString(e.degree)])
  }

  function DumpEmployment(h: Schema.EmploymentHistory): Json {
    JObject(map["company_name" := JString(h.companyName), "period" := JString(h.period),
                "location" := JString(h.location)])
  }

  function DumpExperience(x: Matcher.Experience): Json {
    JObject(map[
      "company_info" := JObject(map["name" := JString(x.companyInfo.name), "period" := JString(x.companyInfo.period),
                                    "location" := JString(x.companyInfo.location)]),
      "job_title" := JString(x.jobTitle),
      "bullet_points" := JList(seq(|x.bulletPoints|, i requires 0 <= i < |x.bulletPoints| =>
                                 JObject(map["bullet_point" := JString(x.bulletPoints[i].bulletPoint)])))])
  }

  function DumpSkill(s: Matcher.Skill): Json {
    JObject(map["category" := JString(s.category), "skill_list" := JString(s.skillList)])
  }

  /** `model_dump()` of the matcher's resume. */
  function DumpMatcherResume(r: Matcher.ResumeData): (d: map<string, Json>)
    ensures d.Keys == {"name", "title", "email", "phone", "location", "linkedin", "summary",
                       "experiences", "education", "employment_history", "skills"}
  {
    map[
      "name" := JString(r.name), "title" := JString(r.title), "email" := JString(r.email),
      "phone" := JString(r.phone), "location" := JString(r.location), "linkedin" := DumpString(r.linkedin),
      "summary" := JString(r.summary),
      "experiences" := JList(seq(|r.experiences|, i requires 0 <= i < |r.experiences| => DumpExperience(r.experiences[i]))),
      "education" := JList(seq(|r.education|, i requires 0 <= i < |r.education| => DumpEducation(r.education[i]))),
      "employment_history" :=
        (if r.employmentHistory.Some?
         then JList(seq(|r.employmentHistory.value|, i requires 0 <= i < |r.employmentHistory.value| =>
                          DumpEmployment(r.employmentHistory.value[i])))
         else JNull),
      "skills" := JList(seq(|r.skills|, i requires 0 <= i < |r.skills| => DumpSkill(r.skills[i])))]
  }

  /** `model_dump()` of the schema module's resume, which has no
      experiences, employment history or skills. */
  function DumpSchemaResume(r: Schema.ResumeData): (d: map<string, Json>)
    ensures d.Keys == {"name", "title", "email", "phone", "location", "linkedin", "summary", "education"}
  {
    map[
      "name" := JString(r.name), "title" := JString(r.title), "email" := JString(r.email),
      "phone" := JString(r.phone), "location" := JString(r.location), "linkedin" := DumpString(r.linkedin),
      "summary" := JString(r.summary),
      "education" := JList(seq(|r.education|, i requires 0 <= i < |r.education| => DumpEducation(r.education[i])))]
  }

  /** The value passed as `resume_data`: either resume class, as the
      `hasattr` checks allow. */
  datatype Resume = FromMatcher(m: Matcher.ResumeData) | FromSchema(s: Schema.ResumeData)

  function Dump(r: Resume): (d: map<string, Json>)
    ensures "formatted_employment_history" !in d && "formatted_experiences" !in d
  {
    match r
    case FromMatcher(m) => DumpMatcherResume(m)
    case FromSchema(s) => DumpSchemaResume(s)
  }

  /** The employment history the template loop sees: present and truthy. */
  function EmploymentOf(r: Resume): seq<Schema.EmploymentHistory> {
    if r.FromMatcher? && r.m.employmentHistory.Some? then r.m.employmentHistory.value else []
  }

  function ExperiencesOf(r: Resume): seq<Matcher.Experience> {
    if r.FromMatcher? then r.m.experiences else []
  }

  const EmploymentKey: string := "formatted_employment_history"
  const ExperiencesKey: string := "formatted_experiences"

  /** One `formatted_employment_history` entry. */
  function FormatEmployment(h: Schema.EmploymentHistory): Json {
    JObject(map["company_name" := JString(h.companyName), "period" := JString(h.period), "location" := JString(h.location)])
  }

  function FormatEmploymentList(hs: seq<Schema.EmploymentHistory>): (js: seq<Json>)
    ensures |js| == |hs|
    ensures forall k :: 0 <= k < |hs| ==> js[k] == FormatEmployment(hs[k])
  {
    if |hs| == 0 then [] else [FormatEmployment(hs[0])] + FormatEmploymentList(hs[1..])
  }

  /** One `formatted_experiences` entry: the company details lifted out of
      `company_info` and the bullet points as plain strings. */
  function FormatExperience(x: Matcher.Experience): Json {
    JObject(map[
      "company" := JString(x.companyInfo.name), "period" := JString(x.companyInfo.period),
      "location" := JString(x.companyInfo.location), "job_title" := JString(x.jobTitle),
      "bullet_points" := JList(FormatBullets(x.bulletPoints))])
  }

  function FormatBullets(bs: seq<Matcher.BulletPoint>): (js: seq<Json>)
    ensures |js| == |bs|
    ensures forall k :: 0 <= k < |bs| ==> js[k] == JString(bs[k].bulletPoint)
  {
    if |bs| == 0 then [] else [JString(bs[0].bulletPoint)] + FormatBullets(bs[1..])
  }

  function FormatExperienceList(xs: seq<Matcher.Experience>): (js: seq<Json>)
    ensures |js| == |xs|
    ensures forall k :: 0 <= k < |xs| ==> js[k] == FormatExperience(xs[k])
  {
    if |xs| == 0 then [] else [FormatExperience(xs[0])] + FormatExperienceList(xs[1..])
  }

  /** Adds the flattened lists to the dump `d`, each only when the list is
      non-empty. No entry of `d` is changed or removed. */
  function AddFormatted(d: map<string, Json>, hs: seq<Schema.EmploymentHistory>, xs: seq<Matcher.Experience>): (p: map<string, Json>)
    requires EmploymentKey !in d && ExperiencesKey !in d
    ensures forall k :: k in d ==> k in p && p[k] == d[k]
    ensures p.Keys == d.Keys + (if |hs| > 0 then {EmploymentKey} else {}) + (if |xs| > 0 then {ExperiencesKey} else {})
    ensures EmploymentKey in p <==> |hs| > 0
    ensures ExperiencesKey in p <==> |xs| > 0
    ensures EmploymentKey in p ==> p[EmploymentKey] == JList(FormatEmploymentList(hs))
    ensures ExperiencesKey in p ==> p[ExperiencesKey] == JList(FormatExperienceList(xs))
  {
    var d1 := if |hs| > 0 then d[EmploymentKey := JList(FormatEmploymentList(hs))] else d;
    if |xs| > 0 then d1[ExperiencesKey := JList(FormatExperienceList(xs))] else d1
  }

  /** The merge data of `generate_resume`: the dump, with the two flattened
      lists added only when the resume has a non-empty list to flatten. */
  function Payload(r: Resume): (p: map<string, Json>)
    ensures forall k :: k in Dump(r) ==> k in p && p[k] == Dump(r)[k]
    ensures EmploymentKey in p <==> |EmploymentOf(r)| > 0
    ensures ExperiencesKey in p <==> |ExperiencesOf(r)| > 0
    ensures forall k :: k in p && k !in Dump(r) ==> k == EmploymentKey || k == ExperiencesKey
    ensures EmploymentKey in p ==>
      && p[EmploymentKey].JList? && |p[EmploymentKey].items| == |EmploymentOf(r)|
      && ReadEmploymentList(p[EmploymentKey].items) == Some(EmploymentOf(r))
    ensures ExperiencesKey in p ==>
      && p[ExperiencesKey].JList? && |p[ExperiencesKey].items| == |ExperiencesOf(r)|
      && ReadExperienceList(p[ExperiencesKey].items) == Some(ExperiencesOf(r))
  {
    EmploymentRoundTrip(EmploymentOf(r));
    ExperiencesRoundTrip(ExperiencesOf(r));
    AddFormatted(Dump(r), EmploymentOf(r), ExperiencesOf(r))
  }

  /** Reads a `formatted_employment_history` entry back. */
  function ReadEmployment(j: Json): Option<Schema.EmploymentHistory> {
    if j.JObject? && Schema.EmploymentFields <= j.fields.Keys
       && j.fields["company_name"].JString? && j.fields["period"].JString? && j.fields["location"].JString?
    then Some(Schema.EmploymentHistory(j.fields["company_name"].str, j.fields["period"].str, j.fields["location"].str))
    else None
  }

  function ReadEmploymentList(js: seq<Json>): Option<seq<Schema.EmploymentHistory>> {
    if |js| == 0 then Some([])
    else
      match (ReadEmployment(js[0]), ReadEmploymentList(js[1..]))
      case (Some(h), Some(rest)) => Some([h] + rest)
      case _ => None
  }

  /** Reads bullet strings back into bullet points. */
  function ReadBullets(js: seq<Json>): Option<seq<Matcher.BulletPoint>> {
    if |js| == 0 then Some([])
    else
      match (js[0], ReadBullets(js[1..]))
      case (JString(s), Some(rest)) => Some([Matcher.BulletPoint(s)] + rest)
      case _ => None
  }

  /** Reads a `formatted_experiences` entry back. */
  function ReadExperience(j: Json): Option<Matcher.Experience> {
    if j.JObject? && {"company", "period", "location", "job_title", "bullet_points"} <= j.fields.Keys
       && j.fields["company"].JString? && j.fields["period"].JString? && j.fields["location"].JString?
       && j.fields["job_title"].JString? && j.fields["bullet_points"].JList?
       && ReadBullets(j.fields["bullet_points"].items).Some?
    then Some(Matcher.Experience(
      Matcher.CompanyInfo(j.fields["company"].str, j.fields["period"].str, j.fields["location"].str),
      j.fields["job_title"].str, ReadBullets(j.fields["bullet_points"].items).value))
    else None
  }

  function ReadExperienceList(js: seq<Json>): Option<seq<Matcher.Experience>> {
    if |js| == 0 then Some([])
    else
      match (ReadExperience(js[0]), ReadExperienceList(js[1..]))
      case (Some(x), Some(rest)) => Some([x] + rest)
      case _ => None
  }

  /** The bullet strings keep every bullet, in order. */
  lemma {:induction false} BulletsRoundTrip(bs: seq<Matcher.BulletPoint>)
    ensures ReadBullets(FormatBullets(bs)) == Some(bs)
  {
    if |bs| > 0 {
      BulletsRoundTrip(bs[1..]);
      assert FormatBullets(bs)[1..] == FormatBullets(bs[1..]);
      assert [bs[0]] + bs[1..] == bs;
    }
  }

  /** The flattened experiences lose nothing: company details, job title
      and bullet points of every experience, in order, can be read back. */
  lemma {:induction false} ExperiencesRoundTrip(xs: seq<Matcher.Experience>)
    ensures ReadExperienceList(FormatExperienceList(xs)) == Some(xs)
  {
    if |xs| > 0 {
      BulletsRoundTrip(xs[0].bulletPoints);
      ExperiencesRoundTrip(xs[1..]);
      assert FormatExperienceList(xs)[1..] == FormatExperienceList(xs[1..]);
      assert ReadExperience(FormatExperience(xs[0])) == Some(xs[0]);
      assert [xs[0]] + xs[1..] == xs;
    }
  }

  /** The flattened employment history keeps every entry's three fields, in
      order. */
  lemma {:induction false} EmploymentRoundTrip(hs: seq<Schema.EmploymentHistory>)
    ensures ReadEmploymentList(FormatEmploymentList(hs)) == Some(hs)
  {
    if |hs| > 0 {
      EmploymentRoundTrip(hs[1..]);
      assert FormatEmploymentList(hs)[1..] == FormatEmploymentList(hs[1..]);
      assert [hs[0]] + hs[1..] == hs;
    }
  }

  /** Whatever the model answers, a generated resume never gets a
      flattened employment history, and it gets flattened experiences
      exactly when it has experiences (always, on the fallback path). */
  lemma GeneratedPayload(jobDescription: string, experienceData: string, user: Matcher.UserInfo, generated: Option<Matcher.ResumeData>)
    ensures var r := Matcher.GenerateTailoredResume(jobDescription, experienceData, user, generated);
      && EmploymentKey !in Payload(FromMatcher(r))
      && (ExperiencesKey in Payload(FromMatcher(r)) <==> |r.experiences| > 0)
    ensures generated.None? ==>
      var p := Payload(FromMatcher(Matcher.GenerateTailoredResume(jobDescription, experienceData, user, generated)));
      ExperiencesKey in p && ReadExperienceList(p[ExperiencesKey].items) == Some(Matcher.FixedExperiences)
  {
  }

  /** The schema module's resume gets neither flattened list. */
  lemma SchemaPayloadIsDump(s: Schema.ResumeData)
    ensures Payload(FromSchema(s)) == DumpSchemaResume(s)
  {
  }
}
