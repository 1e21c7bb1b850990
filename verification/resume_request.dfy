/** How the resume tab turns a selected profile and the form inputs into
    the `user_info` dict handed to the matcher, and what the matcher then
    makes of a profile. */
module ResumeRequest {
  import opened Common
  import opened Text
  import Schema
  import Matcher

  /** The resume title: the stripped target title when it has a non-blank
      character, else the profile's own title. */
  function ChooseTitle(target: string, profileTitle: string): (r: string)
    ensures HasNonSpace(target) ==> r == Strip(target) && r != "" && !IsSpace(r[0]) && !IsSpace(r[|r| - 1])
    ensures !HasNonSpace(target) ==> r == profileTitle
  {
    if target != "" && Strip(target) != "" then Strip(target) else profileTitle
  }

  /** Surrounding whitespace of the target title never reaches the resume. */
  lemma ChooseTitleIgnoresPadding(target: string, profileTitle: string, pad: string)
    requires !HasNonSpace(pad)
    ensures ChooseTitle(pad + target + pad, profileTitle) == ChooseTitle(target, profileTitle)
  {
    var t := pad + target + pad;
    assert forall i :: 0 <= i < |target| ==> t[|pad| + i] == target[i];
    if HasNonSpace(target) {
      var i :| 0 <= i < |target| && !IsSpace(target[i]);
      assert !IsSpace(t[|pad| + i]);
      StripPadded(target, pad);
    } else {
      assert forall i :: 0 <= i < |t| ==> IsSpace(t[i]) by {
        forall i | 0 <= i < |t| ensures IsSpace(t[i]) {
          if i < |pad| {
            assert t[i] == pad[i];
          } else if i < |pad| + |target| {
            assert t[i] == target[i - |pad|];
          } else {
            assert t[i] == pad[i - |pad| - |target|];
          }
        }
      }
    }
  }

  lemma StripPadded(target: string, pad: string)
    requires !HasNonSpace(pad) && HasNonSpace(target)
    ensures Strip(pad + target + pad) == Strip(target)
  {
    var st := Strip(target);
    var a := LeadingSpaces(target);
    var b := a + |st|;
    assert st != "" && st == target[a..b];
    assert !IsSpace(target[a]) && !IsSpace(target[b - 1]);
    PaddedBounds(pad, target, a, b);
    StripBetween(pad + target + pad, |pad| + a, |pad| + b);
  }

  /** The first and last non-whitespace characters of `target` keep their
      places, shifted by `|pad|`, inside `pad + target + pad`. */
  lemma PaddedBounds(pad: string, target: string, a: nat, b: nat)
    requires !HasNonSpace(pad)
    requires a < b <= |target| && !IsSpace(target[a]) && !IsSpace(target[b - 1])
    requires forall i :: 0 <= i < a ==> IsSpace(target[i])
    requires forall i :: b <= i < |target| ==> IsSpace(target[i])
    ensures var t := pad + target + pad;
      && !IsSpace(t[|pad| + a]) && !IsSpace(t[|pad| + b - 1])
      && (forall i :: 0 <= i < |pad| + a ==> IsSpace(t[i]))
      && (forall i :: |pad| + b <= i < |t| ==> IsSpace(t[i]))
      && t[|pad| + a..|pad| + b] == target[a..b]
  {
    var t := pad + target + pad;
    var m := |pad|;
    forall i | 0 <= i < m + a ensures IsSpace(t[i]) {
      if i < m {
        assert t[i] == pad[i];
      } else {
        assert t[i] == target[i - m];
      }
    }
    forall i | m + b <= i < |t| ensures IsSpace(t[i]) {
      if i < m + |target| {
        assert t[i] == target[i - m];
      } else {
        assert t[i] == pad[i - m - |target|];
      }
    }
    assert t[m + a] == target[a] && t[m + b - 1] == target[b - 1];
    assert t[m..m + |target|] == target;
  }

  /** The `user_info` dict built from the selected profile. */
  function BuildUserInfo(p: Schema.ProfileData, target: string): (u: Matcher.UserInfo)
    ensures u.name == Some(p.name) && u.email == Some(p.email) && u.phone == Some(p.phone) && u.location == Some(p.location)
    ensures u.title == Some(ChooseTitle(target, p.title))
    ensures u.linkedin == p.linkedin
    ensures u.employmentHistory.Some?
    ensures |u.education| == |p.education| && |u.employmentHistory.value| == |p.employmentHistory|
    ensures forall k :: 0 <= k < |u.education| ==> u.education[k].Keys == Schema.EducationFields
    ensures forall k :: 0 <= k < |u.employmentHistory.value| ==> u.employmentHistory.value[k].Keys == Schema.EmploymentFields
    ensures forall k :: 0 <= k < |u.education| ==> Schema.EducationFromDict(u.education[k]) == Success(p.education[k])
    ensures forall k :: 0 <= k < |u.employmentHistory.value| ==>
      Schema.EmploymentFromDict(u.employmentHistory.value[k]) == Success(p.employmentHistory[k])
  {
    var edu := seq(|p.education|, k requires 0 <= k < |p.education| => Schema.EducationToDict(p.education[k]));
    var emp := seq(|p.employmentHistory|, k requires 0 <= k < |p.employmentHistory| => Schema.EmploymentToDict(p.employmentHistory[k]));
    assert forall k :: 0 <= k < |edu| ==> Schema.EducationFromDict(edu[k]) == Success(p.education[k]) by {
      forall k | 0 <= k < |edu| ensures Schema.EducationFromDict(edu[k]) == Success(p.education[k]) {
        Schema.DictRoundTrip(p.education[k], Schema.EmploymentHistory("", "", ""));
      }
    }
    assert forall k :: 0 <= k < |emp| ==> Schema.EmploymentFromDict(emp[k]) == Success(p.employmentHistory[k]) by {
      forall k | 0 <= k < |emp| ensures Schema.EmploymentFromDict(emp[k]) == Success(p.employmentHistory[k]) {
        Schema.DictRoundTrip(Schema.Education("", "", "", ""), p.employmentHistory[k]);
      }
    }
    Matcher.UserInfo(
      Some(p.name), Some(ChooseTitle(target, p.title)), Some(p.email), Some(p.phone), Some(p.location),
      p.linkedin, edu, Some(emp))
  }

  /** For a request built from a stored profile the override block cannot
      fail: the fallback is taken only when the model gives no answer. The
      resume then carries the profile's identity, education and LinkedIn
      anchor, and each experience with a matching employment entry carries
      that employer's name, period and location. */
  lemma ProfileResume(p: Schema.ProfileData, target: string, jobDescription: string, experienceData: string, g: Matcher.ResumeData)
    ensures Matcher.PrimaryResume(BuildUserInfo(p, target), g).Some?
    ensures var r := Matcher.GenerateTailoredResume(jobDescription, experienceData, BuildUserInfo(p, target), Some(g));
      && r.name == p.name && r.title == ChooseTitle(target, p.title) && r.email == p.email
      && r.phone == p.phone && r.location == p.location
      && r.linkedin == Some(Matcher.LinkedInAnchor(p.linkedin))
      && r.education == p.education
      && r.summary == g.summary && r.skills == g.skills
      && |r.experiences| == |g.experiences|
      && forall k :: 0 <= k < |g.experiences| && k < |p.employmentHistory| ==>
           r.experiences[k] == Matcher.Experience(
             Matcher.CompanyInfo(p.employmentHistory[k].companyName, p.employmentHistory[k].period, p.employmentHistory[k].location),
             g.experiences[k].jobTitle, g.experiences[k].bulletPoints)
  {
    var u := BuildUserInfo(p, target);
    var pr := Matcher.PrimaryResume(u, g);
    assert pr.Some?;
    var r := pr.value;
    Matcher.EducationListRoundTrip(p.education);
    assert u.education == seq(|p.education|, k requires 0 <= k < |p.education| => Schema.EducationToDict(p.education[k]));
    var n := Matcher.Overlap(g.experiences, u.employmentHistory.value);
    forall k | 0 <= k < |g.experiences| && k < |p.employmentHistory|
      ensures r.experiences[k] == Matcher.Experience(
        Matcher.CompanyInfo(p.employmentHistory[k].companyName, p.employmentHistory[k].period, p.employmentHistory[k].location),
        g.experiences[k].jobTitle, g.experiences[k].bulletPoints)
    {
      assert k < n;
      var c := r.experiences[k].companyInfo;
      assert Matcher.CompanyFromDict(u.employmentHistory.value[k]) == Some(c);
      assert Schema.EmploymentHistory(c.name, c.period, c.location) == p.employmentHistory[k];
    }
  }

  /** A profile with no education and no employment history gives empty
      lists in `user_info`, never a missing one. */
  lemma EmptyListsStayEmpty(p: Schema.ProfileData, target: string)
    requires p.education == [] && p.employmentHistory == []
    ensures BuildUserInfo(p, target).education == [] && BuildUserInfo(p, target).employmentHistory == Some([])
  {
  }
}
