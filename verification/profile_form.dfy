/** The "Create New Profile" form of `app.py`: the row counters behind the
    "Add Another" buttons, the filtering of complete employment and
    education rows, and the required-field gate before saving. The form as
    written calls `ProfileData` without a title or phone, which pydantic
    rejects; `SubmitProfileCorrected` is the save the form evidently means. */
module ProfileForm {
  import opened Common
  import Schema
  import ProfileStore

  datatype EmploymentRow = EmploymentRow(company: string, period: string, location: string)

  datatype EducationRow = EducationRow(university: string, period: string, location: string, degree: string)

  /** Rows shown before any "Add Another" click, and the row limits past
      which the button is no longer shown. */
  const InitialRows: nat := 1
  const MaxEmploymentRows: nat := 3
  const MaxEducationRows: nat := 2

  /** A click on "Add Another": the button is shown, and the count grows,
      only while the count is below the limit. */
  function AddRow(count: nat, limit: nat): (c: nat)
    ensures count < limit ==> c == count + 1
    ensures limit <= count ==> c == count
  {
    if count < limit then count + 1 else count
  }

  /** The row count after `clicks` clicks on the button, from the start. */
  function RowsAfter(clicks: nat, limit: nat): nat {
    if clicks == 0 then InitialRows else AddRow(RowsAfter(clicks - 1, limit), limit)
  }

  /** However often the button is clicked, the count is one more than the
      clicks until it reaches the limit, and then stays there. */
  lemma {:induction false} RowsBounded(clicks: nat, limit: nat)
    requires InitialRows <= limit
    ensures RowsAfter(clicks, limit) == if InitialRows + clicks < limit then InitialRows + clicks else limit
    ensures InitialRows <= RowsAfter(clicks, limit) <= limit
  {
    if clicks > 0 {
      RowsBounded(clicks - 1, limit);
    }
  }

  predicate EmploymentComplete(row: EmploymentRow) {
    row.company != "" && row.period != "" && row.location != ""
  }

  predicate EducationComplete(row: EducationRow) {
    row.university != "" && row.period != "" && row.location != "" && row.degree != ""
  }

  function ToEmployment(row: EmploymentRow): Schema.EmploymentHistory {
    Schema.EmploymentHistory(row.company, row.period, row.location)
  }

  function ToEducation(row: EducationRow): Schema.Education {
    Schema.Education(row.university, row.period, row.location, row.degree)
  }

  /** The employment entries built from the rows: one per complete row, in
      row order. */
  function KeepEmployment(rows: seq<EmploymentRow>): (kept: seq<Schema.EmploymentHistory>)
    ensures |kept| <= |rows|
    ensures forall h :: h in kept ==> h.companyName != "" && h.period != "" && h.location != ""
    ensures forall h :: h in kept <==> exists k :: 0 <= k < |rows| && EmploymentComplete(rows[k]) && h == ToEmployment(rows[k])
  {
    if |rows| == 0 then []
    else
      var rest := KeepEmployment(rows[1..]);
      assert forall k :: 0 < k < |rows| ==> rows[k] == rows[1..][k - 1];
      if EmploymentComplete(rows[0]) then [ToEmployment(rows[0])] + rest else rest
  }

  /** The education entries built from the rows: one per complete row, in
      row order. */
  function KeepEducation(rows: seq<EducationRow>): (kept: seq<Schema.Education>)
    ensures |kept| <= |rows|
    ensures forall e :: e in kept ==> e.universityName != "" && e.period != "" && e.location != "" && e.degree != ""
    ensures forall e :: e in kept <==> exists k :: 0 <= k < |rows| && EducationComplete(rows[k]) && e == ToEducation(rows[k])
  {
    if |rows| == 0 then []
    else
      var rest := KeepEducation(rows[1..]);
      assert forall k :: 0 < k < |rows| ==> rows[k] == rows[1..][k - 1];
      if EducationComplete(rows[0]) then [ToEducation(rows[0])] + rest else rest
  }

  /** Filtering works row by row and keeps row order: the entries of two
      consecutive blocks of rows are those of the first block followed by
      those of the second, and a single row gives its entry exactly when it
      is complete. */
  lemma {:induction false} KeepEmploymentAppend(a: seq<EmploymentRow>, b: seq<EmploymentRow>, row: EmploymentRow)
    ensures KeepEmployment(a + b) == KeepEmployment(a) + KeepEmployment(b)
    ensures KeepEmployment([row]) == if EmploymentComplete(row) then [ToEmployment(row)] else []
  {
    if |a| > 0 {
      assert (a + b)[1..] == a[1..] + b;
      KeepEmploymentAppend(a[1..], b, row);
    } else {
      assert a + b == b;
    }
    assert [row][1..] == [];
  }

  lemma {:induction false} KeepEducationAppend(a: seq<EducationRow>, b: seq<EducationRow>, row: EducationRow)
    ensures KeepEducation(a + b) == KeepEducation(a) + KeepEducation(b)
    ensures KeepEducation([row]) == if EducationComplete(row) then [ToEducation(row)] else []
  {
    if |a| > 0 {
      assert (a + b)[1..] == a[1..] + b;
      KeepEducationAppend(a[1..], b, row);
    } else {
      assert a + b == b;
    }
    assert [row][1..] == [];
  }

  /** What the user typed: the personal fields and the rendered rows. */
  datatype Form = Form(
    name: string,
    email: string,
    location: string,
    linkedin: string,
    employment: seq<EmploymentRow>,
    education: seq<EducationRow>)

  datatype Status = Saved(profile: Schema.ProfileData) | MissingRequired | Rejected(missing: set<string>)

  /** The store after a submission, and what the user is told. */
  datatype Outcome = Outcome(store: ProfileStore.Store, status: Status)

  /** `all([name, email, location])`. */
  predicate RequiredFilled(f: Form) {
    f.name != "" && f.email != "" && f.location != ""
  }

  /** The keyword arguments the save button passes to `ProfileData`, with
      the title and phone as given (`None`: not passed). */
  function FormArgs(f: Form, title: Option<string>, phone: Option<string>): Schema.ProfileArgs {
    Schema.ProfileArgs(
      Some(f.name), title, Some(f.email), phone, Some(f.location),
      Some(if f.linkedin != "" then Some(f.linkedin) else None),
      Some(KeepEducation(f.education)), Some(KeepEmployment(f.employment)))
  }

  /** The save button with the given title and phone arguments: nothing
      happens unless the gate passes, and a validation error leaves the
      store as it was. */
  function Submit(store: ProfileStore.Store, f: Form, title: Option<string>, phone: Option<string>): (r: Outcome)
    ensures r.status.Saved? ==> r.store == ProfileStore.Save(store, r.status.profile)
    ensures !r.status.Saved? ==> r.store == store
    ensures !RequiredFilled(f) <==> r.status.MissingRequired?
  {
    if !RequiredFilled(f) then Outcome(store, MissingRequired)
    else
      match Schema.NewProfile(FormArgs(f, title, phone))
      case Success(p) => Outcome(ProfileStore.Save(store, p), Saved(p))
      case Failure(missing) => Outcome(store, Rejected(missing))
  }

  /** The save button as written: with the gate passed, `ProfileData`
      rejects the missing title and phone, so no profile is ever saved. */
  function SubmitProfile(store: ProfileStore.Store, f: Form): (r: Outcome)
    ensures !r.status.Saved?
    ensures r.store == store
    ensures RequiredFilled(f) ==> r.status == Rejected({"title", "phone"})
    ensures !RequiredFilled(f) ==> r.status == MissingRequired
  {
    var r := Submit(store, f, None, None);
    assert RequiredFilled(f) ==> "title" in r.status.missing && "phone" in r.status.missing;
    r
  }

  /** A concrete filled-in form that the save button as written rejects
      and the corrected one saves. */
  lemma FilledFormRejected(store: ProfileStore.Store)
    ensures var f := Form("Ann Lee", "a@b.c", "Paris", "", [], []);
      && SubmitProfile(store, f) == Outcome(store, Rejected({"title", "phone"}))
      && SubmitProfileCorrected(store, f, "Engineer", "555").status.Saved?
  {
  }

  /** The save button with title and phone inputs added: a profile is saved
      exactly when name, email and location are filled in, and it holds the
      typed fields and the complete rows. */
  function SubmitProfileCorrected(store: ProfileStore.Store, f: Form, title: string, phone: string): (r: Outcome)
    ensures r.status.Saved? <==> RequiredFilled(f)
    ensures !r.status.Saved? ==> r.store == store && r.status == MissingRequired
    ensures r.status.Saved? ==>
      && r.store == ProfileStore.Save(store, r.status.profile)
      && r.status.profile.name == f.name && r.status.profile.email == f.email
      && r.status.profile.location == f.location
      && r.status.profile.title == title && r.status.profile.phone == phone
      && (f.linkedin == "" ==> r.status.profile.linkedin == None)
      && (f.linkedin != "" ==> r.status.profile.linkedin == Some(f.linkedin))
      && r.status.profile.education == KeepEducation(f.education)
      && r.status.profile.employmentHistory == KeepEmployment(f.employment)
  {
    Submit(store, f, Some(title), Some(phone))
  }

  /** The form as rendered after the given numbers of "Add Another"
      clicks: one row of inputs per counted entry. */
  predicate Rendered(f: Form, employmentClicks: nat, educationClicks: nat) {
    && |f.employment| == RowsAfter(employmentClicks, MaxEmploymentRows)
    && |f.education| == RowsAfter(educationClicks, MaxEducationRows)
  }

  /** However often the buttons are clicked, a profile saved from the form
      holds at most three employment entries and two education entries. */
  lemma SavedRowsBounded(store: ProfileStore.Store, f: Form, title: string, phone: string, employmentClicks: nat, educationClicks: nat)
    requires Rendered(f, employmentClicks, educationClicks)
    ensures |KeepEmployment(f.employment)| <= MaxEmploymentRows
    ensures |KeepEducation(f.education)| <= MaxEducationRows
    ensures var r := SubmitProfileCorrected(store, f, title, phone);
      r.status.Saved? ==>
        |r.status.profile.employmentHistory| <= MaxEmploymentRows && |r.status.profile.education| <= MaxEducationRows
  {
    RowsBounded(employmentClicks, MaxEmploymentRows);
    RowsBounded(educationClicks, MaxEducationRows);
  }

  /** A profile saved through the corrected form can be selected under the
      name the profile list shows for it: the gate's non-empty name keeps
      it clear of the `.json` file. */
  lemma CorrectedSaveLoads(store: ProfileStore.Store, f: Form, title: string, phone: string)
    requires RequiredFilled(f)
    ensures var r := SubmitProfileCorrected(store, f, title, phone);
      ProfileStore.Select(r.store, ProfileStore.ListedName(ProfileStore.KeyOf(f.name))) == Some(r.status.profile)
  {
    var r := SubmitProfileCorrected(store, f, title, phone);
    ProfileStore.SaveThenLoad(store, r.status.profile);
  }
}
