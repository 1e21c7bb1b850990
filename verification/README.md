# Resume Builder — deterministic core in Dafny

Resume Builder is a Streamlit app. It keeps candidate profiles as JSON files and asks a language model for a resume tailored to a job description. If the model call fails, it builds a fallback resume from keywords of the job description and the candidate's free-text experience. The finished resume is flattened into merge data for a document template.

This project models the deterministic layer around the model and PDF calls:

- **Keyword extraction** (`Keywords`), from `_extract_keywords`.
- **Fallback summary** (`Summary`), from `_generate_summary`.
- **Resume assembly** (`Matcher`), from `generate_tailored_resume` and `_legacy_generate_tailored_resume`. The model's parsed answer is a parameter: `Some(resume)`, or `None` when a model call raises. The steps of the same `try` block that read `user_info` are modelled, and a `user_info` without an employment history sends every request to the fallback. Every contract therefore holds whatever the model answers.
- **Profile store** (`ProfileStore`): the profile directory as a map from key to profile, where a key is a file name without its `.json` suffix.
- **Resume request** (`ResumeRequest`): the title choice and the `user_info` dict the resume tab builds.
- **Profile form** (`ProfileForm`): row filtering, the "Add Another" counters and the save gate.
- **Merge payload** (`MergePayload`): the merge data of `generate_resume`.
- **Schema** (`Schema`): the pydantic records of `models/schema.py`, with their required and defaulted fields.

Supporting modules:

- `Common`: `Option` and `Result`.
- `Text`: the `str` operations the code uses — `strip`, `lower`, `in`, `replace` and `join`.
- `Ranking`: Python's stable descending sort, modelled on item indices.

## Model

| member | source | states |
|---|---|---|
| Text.Strip | services/resume_matcher.py:836 | `strip()` removes exactly the leading and trailing whitespace. The result is empty iff the text is all whitespace; otherwise it starts and ends with a non-space. |
| Text.StripBetween | app.py:204 | The stripped text is the slice from the first to the last non-whitespace character. |
| Text.ContainsExact | services/resume_matcher.py:822 | Python's `keyword in text` holds iff the keyword occurs at some position of the text. |
| Text.Join | services/resume_matcher.py:842 | `sep.join(parts)` has the total length of the parts plus one separator between each pair. |
| Ranking.Insert | services/resume_matcher.py:810 | One step of the stable sort keeps the list ranked and adds exactly the new index. |
| Ranking.RankOrder | services/resume_matcher.py:810 | The sort lists every index exactly once: higher score first, ties in original order. |
| Ranking.RankedUnique | services/resume_matcher.py:810 | Two ranked lists of the same indices are equal, so any stable descending sort gives this order. |
| Schema.EducationFromDict | models/schema.py:4-9 | `Education(**d)` succeeds iff all four fields are keys of `d` and then takes their values. Otherwise the error names exactly the missing fields. |
| Schema.EmploymentFromDict | models/schema.py:11-15 | `EmploymentHistory(**d)` succeeds iff all three fields are keys and then takes their values. Otherwise the error names exactly the missing fields. |
| Schema.DictRoundTrip | models/schema.py:4-15 | `Education` has four fields and `EmploymentHistory` three; rebuilding a record from its dump gives it back. |
| Schema.NewProfile | models/schema.py:17-26 | `ProfileData(...)` succeeds iff name, title, email, phone and location are passed, and otherwise reports exactly the missing ones. `linkedin` defaults to `None`, education and employment history to `[]`. |
| Keywords.MatchIsRun | services/resume_matcher.py:801 | The pattern `\b[a-zA-Z]+\b` matches a word at a position iff a match starts there and the word is the whole letter run from there. |
| Keywords.MatchStarts | services/resume_matcher.py:801 | The scan lists only positions where a match starts, each once, strictly increasing. |
| Keywords.MatchStartsComplete | services/resume_matcher.py:801 | The scan misses no match: every match start at or after its first position is listed. |
| Keywords.Tokens | services/resume_matcher.py:801 | `findall` gives one word per listed match position, in the same order, and each is the match at that position. |
| Keywords.TokensExact | services/resume_matcher.py:801 | A word is a token iff the pattern matches it at some position. Every match of a word appears as one entry, at its position's place in text order. |
| Keywords.KeepCandidatesAppend | services/resume_matcher.py:802 | The filter keeps word order: filtering concatenated words gives the concatenated results. A single word is kept iff it is longer than three letters and not a stopword. |
| Keywords.KeepCandidatesCount | services/resume_matcher.py:802 | A word passing the filter occurs among the candidates as often as among the tokens. Any other word does not occur. |
| Keywords.Candidates | services/resume_matcher.py:798-802 | Candidates are exactly the tokens of the lower-cased text longer than three letters and not among the 14 stopwords. Each is lower-case ASCII letters only. |
| Keywords.FirstIndexUnique | services/resume_matcher.py:805-807 | The first occurrence of a word is unique: the position that decides dict order, and so tie order. |
| Keywords.Tally | services/resume_matcher.py:805-807 | The frequency dict holds each candidate once, in first-occurrence order, with its number of occurrences. |
| Keywords.BumpStep | services/resume_matcher.py:806-807 | One increment `keyword_freq[word] = get(word, 0) + 1` turns the table for a prefix into the table for the prefix extended by that word. |
| Keywords.ExtractKeywords | services/resume_matcher.py:795-811 | The result has at most 15 distinct candidates. They are ordered by non-increasing count, ties by first occurrence. A candidate is left out only when 15 were kept and all of them rank above it. Every keyword is a long lower-case non-stopword. |
| Summary.SplitFrom | services/resume_matcher.py:819 | Splitting at `\n## ` / `\n### ` loses nothing: pieces and separators rejoin to the text, and no piece contains a separator. |
| Summary.Sections | services/resume_matcher.py:819 | There is always at least one section, and none contains a heading separator. |
| Summary.Hits | services/resume_matcher.py:822 | A section's score never exceeds the number of keywords. |
| Summary.HitsCountsFound | services/resume_matcher.py:822 | A section scores above zero iff some keyword occurs in its lower-cased text. With distinct keywords, the score is the number of keywords that occur. |
| Summary.RelevantFrom | services/resume_matcher.py:821-825 | Relevant sections are exactly those containing at least one keyword of the lower-cased text, in text order. |
| Summary.TopSections | services/resume_matcher.py:827-834 | At most 3 relevant sections are used, ranked by keyword count with ties in text order. A relevant section is left out only when 3 better ones were kept. |
| Summary.ParagraphEnd | services/resume_matcher.py:836 | The first paragraph ends at the first `\n\n`, or at the end of the text. |
| Summary.Greedy | services/resume_matcher.py:834-839 | The chosen paragraphs fit in the 1500-character budget and are never more than the paragraphs given. |
| Summary.GreedyChosen | services/resume_matcher.py:834-839 | Only given paragraphs are chosen. A skipped paragraph would have overflowed the final total. |
| Summary.GreedyExtend | services/resume_matcher.py:834-839 | Adding one more paragraph keeps what was chosen so far. It adds the new paragraph iff that fits on top of what was taken before it. |
| Summary.GreedyIsBudgetLoop | services/resume_matcher.py:834-839 | The recursive choice equals the loop as written: paragraphs visited in order, each appended when it fits. |
| Summary.GreedySteps | services/resume_matcher.py:834-839 | Paragraph `k` is taken iff it fits in the budget on top of what was taken from paragraphs `0 .. k-1`. |
| Summary.SkipThenTake | services/resume_matcher.py:837-839 | After a paragraph overflows and is skipped, a later shorter one is still taken (lengths 1000, 600, 400 give the first and third). |
| Summary.SummaryParagraphsChosen | services/resume_matcher.py:834-839 | Every summary paragraph is the first paragraph of a top section. A top paragraph is missing only if it would not fit. The summary paragraphs are what the in-order budget loop takes from the top paragraphs. |
| Summary.Pad | services/resume_matcher.py:845-846 | A summary shorter than 100 characters gets the generic statement appended; a longer one is returned unchanged. |
| Summary.ComposeSummary | services/resume_matcher.py:841-848 | The summary starts with the space-joined paragraphs and is 100 to 1502 characters long. |
| Summary.GenerateSummary | services/resume_matcher.py:813-848 | The fallback summary is always 100 to 1502 characters long. |
| Summary.NoHitsGivesGeneric | services/resume_matcher.py:821-848 | When no section contains a keyword, the summary is just the generic statement. |
| Matcher.ExperienceData | services/resume_matcher.py:69-74 | The experience text wins when non-empty; otherwise the file contents when a path is given; otherwise `""`. |
| Matcher.CompanyFromDict | services/resume_matcher.py:711-714 | Reading `company_name`, `period` and `location` fails iff a key is missing. Otherwise it yields the values the same dict gives an `EmploymentHistory`. |
| Matcher.OverrideFrom | services/resume_matcher.py:708-714 | The loop fails iff a dict it reaches lacks a key. Otherwise each reached experience takes its company details from the dict at its index, and nothing else changes. |
| Matcher.OverrideCompanies | services/resume_matcher.py:708-714 | For `i < min(#history, #experiences)`, experience `i` gets the company details of history entry `i`. Job titles, bullets, later entries and the count are unchanged. Failure happens iff such an entry lacks a key. |
| Matcher.OverrideIdempotent | services/resume_matcher.py:708-714 | Applying the override twice is the same as applying it once. |
| Matcher.EducationList | services/resume_matcher.py:717-720 | Building the education list fails iff some dict lacks a field. Otherwise it holds one record per dict, in order. |
| Matcher.EducationListRoundTrip | services/resume_matcher.py:717-720 | Dumping education records to dicts and rebuilding them gives the same list. |
| Matcher.LinkedInAnchor | services/resume_matcher.py:725 | The anchor is empty iff the URL is missing or empty. |
| Matcher.AnchorRoundTrip | services/resume_matcher.py:725 | The URL can be read back out of the anchor. No anchor is built for a missing or empty URL. |
| Matcher.PrimaryResume | services/resume_matcher.py:428-738 | Assembly fails iff `user_info` has no employment history, or a reached employment dict or an education dict lacks a key. Otherwise: identity fields come from `user_info` (`""` when absent); LinkedIn is the anchor; summary and skills are the model's; employment history is `[]`; experiences are overridden by index; education is rebuilt from the dicts. |
| Matcher.PrimaryIgnoresAnswerIdentity | services/resume_matcher.py:726-738 | The model's own name, contact fields, LinkedIn, education and employment history never reach the result. |
| Matcher.LegacyResume | services/resume_matcher.py:850-919 | The fallback has the identity fields of `user_info` and the raw LinkedIn value. It has exactly the three fixed experiences; no education, employment history or skills; and a 100–1502 character summary. |
| Matcher.GenerateTailoredResume | services/resume_matcher.py:400-743 | On both paths the identity fields come from `user_info` and the employment history is `[]`. The primary shape holds when assembly succeeds; otherwise the result is exactly the legacy resume, summary included. Without an employment history in `user_info` the result is always the legacy resume. |
| Matcher.LinkedInForms | services/resume_matcher.py:725-732 | The result's LinkedIn is the anchor or the raw value. It is absent only when `user_info` has none. |
| Matcher.FallbackShape | services/resume_matcher.py:740-743 | With no answer from the model, the resume has three experiences. Its summary is the keyword summary of the matcher's experience data: the constructor's text when non-empty, else the file contents. |
| ProfileStore.KeyOf | app.py:34 | The key a profile is saved under is the name with every space made an underscore and nothing else changed. |
| ProfileStore.DisplayOf | app.py:70 | The name shown for a stem is the stem with every underscore made a space and nothing else changed. |
| ProfileStore.KeyCollision | app.py:34 | Two names share a file iff they differ only in spaces versus underscores. |
| ProfileStore.DisplayRoundTrip | app.py:69 | Showing a key with underscores as spaces and mapping the result back recovers the key iff the key has no space. A key written by a save never has one. |
| ProfileStore.Save | app.py:31-39 | The profile is stored under its key, replacing any earlier profile there. Every other file is untouched. |
| ProfileStore.Load | app.py:41-52 | Loading a key gives `None` iff no file `<key>.json` exists; otherwise it gives the profile stored there. |
| ProfileStore.Delete | app.py:54-62 | Delete returns true iff the file existed. It removes exactly that file, and an absent key leaves the store unchanged. |
| ProfileStore.FileStem | app.py:34 | The stem of the file `<key>.json` is the key, except that the file `.json` for an empty key has stem `.json`. |
| ProfileStore.ListedName | app.py:69-70 | The listed name is the file's stem with underscores shown as spaces; the file `.json` is listed as `.json`. |
| ProfileStore.Select | app.py:163 | Selecting a listed name finds a profile iff its key is stored, and then it is the profile stored under that key. |
| ProfileStore.SaveThenLoad | app.py:31-70 | A saved profile loads back under its key. Selecting its listed name gives it back when the name is non-empty. For an empty name, selecting the listed `.json` loads the file `.json.json` instead, not the saved profile. |
| ProfileStore.SaveOverwrites | app.py:31-39 | A later save of a colliding name replaces the earlier profile. |
| ProfileStore.SaveThenDelete | app.py:31-62 | Deleting a freshly saved profile restores the store. |
| ProfileStore.WellKeyedPreserved | app.py:31-72 | Save and delete keep every file under its profile's key. In such a store the name listed for every file except `.json` selects that file's profile. |
| ProfileStore.ListProfiles | app.py:64-72 | Each stored file is visited exactly once. The name at each place in the list is the listed name of the file visited there. |
| ResumeRequest.ChooseTitle | app.py:204 | The title is the stripped target when the target has a non-blank character, else the profile title. |
| ResumeRequest.ChooseTitleIgnoresPadding | app.py:204 | Whitespace around the target title never changes the chosen title. |
| ResumeRequest.StripPadded | app.py:204 | Stripping ignores added surrounding whitespace. |
| ResumeRequest.BuildUserInfo | app.py:206-215 | `user_info` carries the profile's fields and the chosen title, and always has an employment history. Each education and employment dict has exactly its record's fields and rebuilds that record. |
| ResumeRequest.ProfileResume | app.py:204-218 | For a request built from a profile, the override block never fails, so the fallback is never taken when the model answers. When the model answers, the resume has the profile's identity, education and LinkedIn anchor, and each experience with an employment entry carries that employer's details. |
| ResumeRequest.EmptyListsStayEmpty | app.py:213-214 | A profile without education or employment gives empty lists in `user_info`, never a missing one. |
| ProfileForm.AddRow | app.py:355-360 | A click adds a row only while the count is below the limit. |
| ProfileForm.RowsBounded | app.py:328-329 | Starting from one row, the count is one plus the clicks until it reaches the limit (3 employment rows, 2 education rows), then stays there. |
| ProfileForm.KeepEmployment | app.py:341-348 | Exactly the complete employment rows, each with three non-empty fields, become entries. |
| ProfileForm.KeepEducation | app.py:383-391 | Exactly the complete education rows, each with four non-empty fields, become entries. |
| ProfileForm.KeepEmploymentAppend | app.py:332-348 | Employment filtering keeps row order: the entries of concatenated rows are the concatenated entries. A single row yields its entry iff it is complete. |
| ProfileForm.KeepEducationAppend | app.py:373-391 | Education filtering keeps row order, in the same way. |
| ProfileForm.Submit | app.py:407-424 | Nothing is saved unless name, email and location are filled in. A rejected profile leaves the store unchanged; a saved one is stored by `save_profile`. |
| ProfileForm.SubmitProfile | app.py:407-424 | As written, the form never saves. With the gate passed, the save is rejected for the missing title and phone. |
| ProfileForm.FilledFormRejected | app.py:407-424 | A concrete filled-in form is rejected for the missing title and phone as written, and saved by the corrected form. |
| ProfileForm.SubmitProfileCorrected | app.py:407-424 | With a title and phone supplied, a profile is saved iff name, email and location are filled in. It holds the typed fields, the typed LinkedIn (`None` for an empty input), and the complete rows. |
| ProfileForm.SavedRowsBounded | app.py:328-418 | However often "Add Another" is clicked, the rendered rows are at most 3 employment and 2 education rows. A saved profile therefore holds at most 3 employment entries and 2 education entries. |
| ProfileForm.CorrectedSaveLoads | app.py:31-70 | A profile saved by the corrected form can be selected under its listed name. The gate's non-empty name keeps it clear of the `.json` file. |
| MergePayload.DumpMatcherResume | services/resume_matcher.py:40-53 | The matcher resume dumps to its eleven field names. |
| MergePayload.DumpSchemaResume | models/schema.py:28-37 | The schema resume dumps to eight field names: no experiences, employment history or skills. |
| MergePayload.AddFormatted | services/pdf_generator.py:50-74 | Each flattened list is added only when non-empty. No dumped entry is changed or removed. |
| MergePayload.Payload | services/pdf_generator.py:47-74 | The merge data contains the whole dump unchanged. `formatted_employment_history` is present iff the employment history is non-empty, and `formatted_experiences` iff the experiences are. Each has one entry per item, in order, and reads back to the original list. |
| MergePayload.BulletsRoundTrip | services/pdf_generator.py:66 | The bullet strings keep every bullet, in order. |
| MergePayload.ExperiencesRoundTrip | services/pdf_generator.py:61-74 | Flattened experiences read back to the same experiences: company details, job title and bullets, in order. |
| MergePayload.EmploymentRoundTrip | services/pdf_generator.py:50-58 | Flattened employment entries read back to the same entries, in order. |
| MergePayload.GeneratedPayload | services/pdf_generator.py:50-74 | A generated resume never gets `formatted_employment_history`. It gets `formatted_experiences` iff it has experiences, and on the fallback these read back to the fixed three. |
| MergePayload.SchemaPayloadIsDump | services/pdf_generator.py:50-74 | A schema-module resume's merge data is just its dump. |

## Left out

- The OpenAI calls are not modelled: `extract_sills`, the structured `parse` call and `_generate_summary_with_ai`. Their outcome is the `generated` parameter of `Matcher.GenerateTailoredResume`. Prompt-only rules (distinct verbs, skill coverage and so on) are checked by no code, so nothing is stated about them.
- Adobe PDF Services, temporary files, credentials and template reading are foreign SDK calls and I/O. Only the merge data built before them is modelled.
- Streamlit rendering, reruns and download links are UI only. Session-state counters appear as `ProfileForm.AddRow` steps; rendered rows are the form's row sequences.
- The filesystem and JSON encoding become a map from key (file name without `.json`) to profile. Serialisation is taken as lossless, and keys containing `/` or other characters a filesystem rejects are not considered.
- `_load_experience_data` reads a file; its contents are a parameter of `Matcher.ExperienceData`.
- `_generate_experiences_from_history` and its helpers are never called; their call is commented out.
- Matcher.CompanyFromDict: the dicts in `user_info` map strings to strings. A present key holding a non-string value is not modelled, nor are pydantic's type coercions.
- Keywords.Candidates: lower-casing covers ASCII letters only, and `\b` treats non-ASCII characters as non-word characters. Python uses Unicode case mapping and Unicode word characters.
- Keywords.Tokens: `\b` treats non-ASCII characters as non-word characters, while Python's `re` counts Unicode letters as word characters. The model tokenises "über café" to ["ber", "caf"]; Python finds no match there.
- Keywords.MatchStarts: the same ASCII-only `\b`, so a letter run next to a non-ASCII letter counts as a match start.
- Keywords.MatchStartsComplete: the same ASCII-only `\b`; completeness is stated for that notion of match start.
- Keywords.TokensExact: the same ASCII-only `\b`; the correspondence is with ASCII-bounded matches.
- Summary.Hits: sections are lower-cased by the same ASCII-only `Text.Lower`. In Python, `"\u212Aubernetes".lower()` contains `"kubernetes"`; in the model it does not. Its own contract gives only the bound on the score; what the score counts is stated by `Summary.HitsCountsFound`.
- Text.Strip: Python's whitespace set is modelled by code point. Unicode normalisation is not modelled.
- Summary.GenerateSummary: its contract states only the length bounds. That it begins with the joined paragraphs is stated by `Summary.ComposeSummary`, which it applies to `Summary.SummaryParagraphs`.
- ProfileStore.ListProfiles: the order of `glob` is filesystem-dependent. The files are visited in an arbitrary order, so which file comes first is not stated.
- Loading a file that lacks a required field raises in `ProfileData(**...)`. Files are assumed to hold profiles the app wrote.
- The resume-matcher `Education` and `EmploymentHistory` classes have the same fields as those in `models/schema.py`, so both are modelled by the `Schema` datatypes.

## Findings

| source | as written | input that shows it | evidently intended | confidence | as-written member | corrected member |
|---|---|---|---|---|---|---|
| app.py:411-418 | The save button calls `ProfileData(name=…, email=…, location=…, linkedin=…, education=…, employment_history=…)` without `title` or `phone`. Both are required (models/schema.py:20,22), so pydantic raises a validation error. | Any form with name, email and location filled in, e.g. name "Ann Lee", email "a@b.c", location "Paris". | The profile is saved once name, email and location are filled in. | not executed | ProfileForm.SubmitProfile | ProfileForm.SubmitProfileCorrected |
