# Résumé generator: a verified model of its core

The résumé generator is a small Flask application. Signed-in users create, edit, delete and download résumés. A résumé has a title, a summary, a list of education entries, a list of work-experience entries, skills and awards. The download is a PDF built from a list of flowables (the "story"). A JavaScript file in the browser adds some client-side help:
- a light/dark theme toggle;
- committing a skill or award when Enter is pressed;
- validators for the signup, login and résumé forms;
- an email pattern test;
- a text truncation helper.

This project models that core in Dafny and proves what the code promises. It has seven modules:

- `Wrappers`: an `Option` type.
- `Strings`: the string primitives both languages rely on:
  - Python's `str.strip` and JavaScript's `trim`, each with its own white-space set;
  - `str.split` on one character and `str.join`;
  - `str.replace` of one character;
  - decimal rendering of an index.
- `Records`: the users, résumé rows, education and experience entries, and the decoded submission.
- `FormDecoder`: how a posted form becomes a submission.
  - The `education[i][...]` and `experience[i][...]` groups are read from index 0 until the first missing anchor field. This is a loop, proved equal to a list defined by the first missing index.
  - The skills and awards texts are split on commas into stripped, non-empty tokens.
- `PdfStory`: the story the download handler builds, section by section, and the attachment's file name.
- `Store`: the résumé table as a map from id to row.
  - The create, edit, delete and download handlers are transition functions on that map. Edit, delete and download sit behind a 404 check and the owner-or-administrator permission test; create has neither and only needs a title.
  - The class `ResumeStore` holds the map and the next id, and performs the transitions in place.
- `ClientScript`: the browser helpers, with the DOM reduced to strings and a mutable text input.

## Model

| member | source | states |
|---|---|---|
| Strings.Trim | app.py:154 | `strip()`/`trim()` leave a result with no white space at either end, never longer than the input |
| Strings.TrimBounds | app.py:154 | the trimmed text is the slice between a white-space prefix and a white-space suffix of the input |
| Strings.TrimUnique | app.py:154 | every split of a text into white space, a trimmed middle and white space yields `Trim` as that middle: stripping is characterised by its result |
| Strings.TrimEmpty | static/js/script.js:142 | the trimmed text is empty exactly when the input is all white space |
| Strings.TrimTrimmed | app.py:154 | trimming a trimmed text changes nothing |
| Strings.Split | app.py:154 | `split(',')` gives at least one piece, and no piece holds the separator |
| Strings.JoinSplit | app.py:154 | joining the pieces of `split(sep)` with `sep` gives the text back |
| Strings.Join | app.py:333 | `", ".join(...)`: the pieces with the separator between consecutive ones; `JoinSplit` and `FormDecoder.SplitTokensJoin` are its inverses |
| Strings.SplitConcat | app.py:154 | splitting `a + sep + b` gives the pieces of `a` followed by those of `b` |
| Strings.ReplaceChar | app.py:349 | `replace(' ', '_')` changes every occurrence of the one character and nothing else, keeping the length |
| Strings.NatToString | app.py:127 | the decimal rendering of an index is a non-empty string of digits, one digit long exactly below 10 |
| Strings.NatToStringValue | app.py:127 | the rendering of `i` in the f-string spells `i` in decimal, most significant digit first, with no leading zero |
| Strings.NatToStringInjective | app.py:127 | distinct indices render differently |
| Strings.JsSpaceIsPythonSpace | static/js/script.js:249 | every JavaScript white-space character except U+FEFF is Python white space |
| FormDecoder.FieldKeyInjective | app.py:127-134 | the names `group[i][field]` of two indices coincide only when the indices do |
| FormDecoder.RunLength | app.py:126-127 | the number of groups read: every anchor below it is present and the anchor at it is missing |
| FormDecoder.RunLengthUnique | app.py:126-127 | any index with all anchors below present and its own anchor missing is the run length |
| FormDecoder.RunLengthIgnoresLaterIndices | app.py:126-127 | fields past the first missing anchor do not affect how many groups are read |
| FormDecoder.EducationList | app.py:126-136 | the education list as a value: one entry per index below the first missing `institution`; `DecodeEducation` is proved equal to it and `EducationIgnoresLaterIndices` shows what it depends on |
| FormDecoder.ExperienceList | app.py:139-148 | the experience list as a value, one entry per index below the first missing `company`; partners are `DecodeExperience` and `ExperienceIgnoresLaterIndices` |
| FormDecoder.DecodeEducation | app.py:126-136 | the loop collects, for every index below the first missing `institution`, the entry read from that group's six fields; the result is `EducationList` |
| FormDecoder.DecodeExperience | app.py:139-148 | the same for the `experience` groups anchored on `company`, with five fields |
| FormDecoder.EducationIgnoresLaterIndices | app.py:126-136 | two forms that agree on every education field up to the first missing institution decode to the same education list |
| FormDecoder.ExperienceIgnoresLaterIndices | app.py:139-148 | the same for experience up to the first missing company |
| FormDecoder.KeepStripped | app.py:154 | the comprehension keeps at most one token per piece |
| FormDecoder.KeepStrippedTokens | app.py:154 | every kept token is non-empty, stripped and comma-free when the pieces are comma-free |
| FormDecoder.SplitTokens | app.py:151-155 | every skill or award is non-empty, stripped and free of commas |
| FormDecoder.SplitTokensEmpty | app.py:151-152 | the default text `''` gives no tokens |
| FormDecoder.SplitTokensBlank | app.py:154 | text made only of white space gives no token |
| FormDecoder.SplitTokensPiece | app.py:154 | text without a comma gives its stripped form as its one token, or nothing when that is empty |
| FormDecoder.SplitTokensConcat | app.py:154 | the tokens of `a + ',' + b` are the tokens of `a` followed by those of `b` |
| FormDecoder.SplitTokensLeading | app.py:154 | white space in front of the text does not change its tokens |
| FormDecoder.SplitTokensTrailing | app.py:154 | white space after the text does not change its tokens |
| FormDecoder.SplitTokensBlankAfterComma | app.py:154 | white space after a final comma adds no token |
| FormDecoder.SplitTokensJoin | app.py:154 | tokens joined with `", "` split back into exactly the same tokens |
| FormDecoder.DecodeForm | app.py:120-165 | the decoded submission as a value; `DecodeResumeForm` computes it, `MissingListsAreEmpty` and `PdfStory.SkillsParagraphRoundTrip` state its properties |
| FormDecoder.DecodeResumeForm | app.py:120-165 | the parsing half of the create and edit handlers: title and summary as posted, the two decoded lists, and the skills and awards tokens |
| FormDecoder.MissingListsAreEmpty | app.py:151-155 | a form without skills and awards fields decodes to empty skills and awards |
| Store.CanAccess | app.py:181 | owner or administrator, the test of app.py:181, 244 and 260; `Fetch` and `DeniedChangesNothing` state what it admits and refuses |
| Store.Fetch | app.py:178-183 | `get_or_404` then the permission test: not found exactly when the id is absent, forbidden exactly when present but neither owner nor administrator, otherwise the row itself |
| Store.OwnedIds | app.py:112 | the dashboard query: exactly the ids of rows whose `user_id` is the user's |
| Store.NewResume | app.py:157-165 | a new row carries the submitted content, the actor as owner, and both timestamps set to the creation time |
| Store.Overwrite | app.py:224-230 | an edit replaces every content column and the update time, keeping owner and creation time |
| Store.CreateRows | app.py:157-168 | a titled submission is stored under the next id and nothing else changes; an untitled one is refused and nothing changes |
| Store.EditRows | app.py:178-232 | not found exactly when the id is absent, forbidden exactly when present but the actor is neither owner nor administrator (the 404 comes first); an edit writes only when the row exists, the actor may access it and a title was sent; it never adds or removes a row and never touches another row |
| Store.DeleteRows | app.py:241-249 | not found exactly when the id is absent, forbidden exactly when present but not accessible (the 404 comes first); a permitted delete removes exactly that row; otherwise nothing changes |
| Store.DownloadOf | app.py:257-349 | a permitted download yields the row's story and its file name; not found exactly when the id is absent, forbidden exactly when the row exists but the actor is neither its owner nor an administrator |
| Store.EditKeepsOwnership | app.py:224-230 | no edit changes a row's owner or creation time |
| Store.EditWritesSubmission | app.py:224-232 | after a permitted, titled edit the row holds exactly the submitted content and the new update time |
| Store.DeleteOwned | app.py:241-249 | deleting a row removes it from its owner's dashboard and from no one else's |
| Store.CreateOwned | app.py:157-168 | a created row was not there before; it joins its author's dashboard and no other dashboard changes |
| Store.DeniedChangesNothing | app.py:181-183 | when the permission test refuses, edit, delete and download all end in the permission outcome and leave every row as it was |
| Store.TransitionsKeepIdsValid | app.py:157-249 | create, edit and delete keep every id positive and below the next id |
| Store.ResumeStore.constructor | app.py:35-45 | an empty table whose next id is 1 |
| Store.ResumeStore.Create | app.py:157-168 | the store performs `CreateRows` in place and keeps its id invariant |
| Store.ResumeStore.Edit | app.py:178-232 | the store performs `EditRows` in place, keeping the next id and its id invariant |
| Store.ResumeStore.Delete | app.py:241-249 | the store performs `DeleteRows` in place, keeping the next id and its id invariant |
| Store.ResumeStore.Download | app.py:257-349 | the outcome is `DownloadOf` the current rows: the story is built by `PdfStory.BuildStory` |
| Store.ResumeStore.Dashboard | app.py:112 | exactly the ids of the current rows whose `user_id` is the actor's |
| PdfStory.EducationMarkupLayout | app.py:309-313 | an education paragraph opens with the bold "degree in field" line and the institution; it closes with the description when there is one, otherwise with the date range |
| PdfStory.ExperienceMarkupLayout | app.py:322-325 | an experience paragraph opens with the bold position "at" the company; it closes with the description when there is one, otherwise with the date range |
| PdfStory.EducationMarkup | app.py:309-313 | the paragraph of one education entry; its layout and the verbatim placement of user text are stated by `EducationMarkupLayout` and `EducationMarkupVerbatim` |
| PdfStory.ExperienceMarkup | app.py:322-325 | the paragraph of one experience entry; see `ExperienceMarkupLayout` and `ExperienceMarkupVerbatim` |
| PdfStory.EducationMarkupVerbatim | app.py:309-313 | for every entry, whatever its text holds (`<` and `&` included), the degree, the field and the institution appear unchanged at their offsets and the description unchanged at the end: nothing is escaped |
| PdfStory.ExperienceMarkupVerbatim | app.py:322-325 | for every entry the position and the company appear unchanged at their offsets and the description unchanged at the end |
| PdfStory.DegreeFieldAmbiguity | app.py:309 | the " in " separator is ambiguous: two different entries render to the same paragraph |
| PdfStory.EducationBlocks | app.py:308-315 | two elements per education entry |
| PdfStory.EducationBlocksShape | app.py:308-315 | entry j gives element 2j, its paragraph, and element 2j+1, a narrow spacer, in list order |
| PdfStory.ExperienceBlocks | app.py:321-327 | two elements per experience entry |
| PdfStory.ExperienceBlocksShape | app.py:321-327 | entry j gives element 2j, its paragraph, and element 2j+1, a narrow spacer, in list order |
| PdfStory.AwardLines | app.py:340-341 | one line per award |
| PdfStory.AwardLinesShape | app.py:340-341 | line j is the bullet followed by award j |
| PdfStory.AppendEducation | app.py:308-315 | the loop over the education entries builds `EducationBlocks` |
| PdfStory.AppendExperience | app.py:321-327 | the loop over the experience entries builds `ExperienceBlocks` |
| PdfStory.AppendAwards | app.py:340-341 | the loop over the awards builds `AwardLines` |
| PdfStory.EmitSummary | app.py:300-303 | the summary heading, paragraph and wide spacer, present only when the summary is non-empty |
| PdfStory.EmitEducation | app.py:306-316 | the education heading, blocks and closing narrow spacer, present only when there are entries |
| PdfStory.EmitExperience | app.py:319-328 | the experience heading, blocks and closing narrow spacer, present only when there are entries |
| PdfStory.EmitSkills | app.py:331-335 | the skills heading, the skills joined with `", "` and a wide spacer, present only when there are skills |
| PdfStory.EmitAwards | app.py:338-341 | the awards heading and the bullet lines, present only when there are awards |
| PdfStory.StoryOf | app.py:293-341 | the story as a value; `BuildStory` computes it, and `StoryHeadings`, `HeadingPresence` and `StoryOpensWithTitle` state its shape |
| PdfStory.BuildStory | app.py:293-341 | the built story is the title, a wide spacer, then the five sections in their fixed order (`StoryOf`) |
| PdfStory.SectionBodies | app.py:300-341 | each present section is its own heading followed only by paragraphs and spacers |
| PdfStory.StoryHeadings | app.py:293-341 | the headings of the story are exactly the present sections', in the order summary, education, experience, skills, awards |
| PdfStory.HeadingPresence | app.py:300-338 | each section heading appears exactly when its field is non-empty |
| PdfStory.StoryOpensWithTitle | app.py:296-297 | the story opens with the title and a wide spacer, and no title element occurs after that |
| PdfStory.SkillsParagraphRoundTrip | app.py:333 | the skills paragraph, split again on commas, gives back exactly the decoded skills |
| PdfStory.DownloadName | app.py:349 | the file name is the title with every space replaced by `_`, followed by `.pdf`; it contains no space |
| ClientScript.Toggled | static/js/script.js:28 | the next theme; its partners `ToggledIsKnown` and `ToggleTwice` state that it lands on a known theme and when it is an involution |
| ClientScript.ToggledIsKnown | static/js/script.js:27-28 | toggling always gives "light" or "dark", and gives "dark" exactly from "light" |
| ClientScript.ToggleTwice | static/js/script.js:27-28 | toggling twice returns to the start exactly when the start was "light" or "dark" |
| ClientScript.ThemeManager.constructor | static/js/script.js:2-6 | the stored theme when one is stored and non-empty, otherwise "light" |
| ClientScript.ThemeManager.ToggleTheme | static/js/script.js:27-30 | the current theme becomes the toggled one |
| ClientScript.TruncateText | static/js/script.js:504-507 | a text within the limit is returned unchanged; a longer one keeps its first `maxLength` characters and ends in "..."; a negative limit gives "..." |
| ClientScript.TruncateIdempotent | static/js/script.js:504-507 | truncating a truncated text changes nothing |
| ClientScript.AfterEnter | static/js/script.js:248-253 | the input value after Enter; `AfterEnterIdempotent` and `AfterEnterKeepsTokens` state its properties |
| ClientScript.AfterEnterIdempotent | static/js/script.js:248-253 | pressing Enter twice adds the separator once |
| ClientScript.AfterEnterKeepsTokens | static/js/script.js:248-253 | pressing Enter does not change the skills or awards the server will store from that text |
| ClientScript.TokensIgnoreSurroundingSpace | static/js/script.js:248-253 | white space around a text and one trailing ", " do not change its server-side tokens |
| ClientScript.AddSkillFromInput | static/js/script.js:248-253 | the input becomes its trimmed value plus ", " when that is non-empty and does not end in a comma; otherwise it is left as it was |
| ClientScript.AddAwardFromInput | static/js/script.js:255-260 | the same rule for the awards input |
| ClientScript.CloseEntry | static/js/script.js:249-252 | the shared body of both handlers: the input's new value is `AfterEnter` of its old value |
| ClientScript.IsValidEmail | static/js/script.js:175-178 | the email test computed by splitting at the first '@'; `IsValidEmailMatchesPattern` proves it accepts exactly what the pattern matches |
| ClientScript.IsValidEmailMatchesPattern | static/js/script.js:175-178 | the computed email test accepts exactly the strings `/^[^\s@]+@[^\s@]+\.[^\s@]+$/` matches |
| ClientScript.ValidEmailMatches | static/js/script.js:176-177 | every string the computed test accepts matches the pattern |
| ClientScript.MatchIsValidEmail | static/js/script.js:176-177 | every string the pattern matches passes the computed test |
| ClientScript.Utf16Length | static/js/script.js:87 | `.length` counts UTF-16 units: between one and two per character |
| ClientScript.ValidateSignupForm | static/js/script.js:70-105 | valid exactly when the email passes, the password has at least six UTF-16 units, and the confirmation is equal |
| ClientScript.ValidateLoginForm | static/js/script.js:107-131 | valid exactly when the email passes and the password is non-empty |
| ClientScript.ValidateResumeForm | static/js/script.js:133-173 | valid exactly when the title, every institution input and every company input holds something besides white space |
| ClientScript.TrimmedEmpty | static/js/script.js:142 | `value.trim().length === 0` exactly when the value is all white space |

## Left out

- Routing, templates, flash messages, redirects, `login_required`, password hashing, sessions and `send_file` are not modelled. Outcomes are the `Store.Outcome` constructors.
- Signup, login, logout, the admin views and the JSON API of app.py are not modelled. Neither are the GET views that render the create and edit forms.
- The database is a map from id to row. SQLite's choice of a new primary key is modelled as a counter `nextId` that never goes back. SQLite without AUTOINCREMENT picks the largest id plus one, so after the newest row is deleted it hands out that id again, which the model does not.
- Store.OwnedIds and Store.ResumeStore.Dashboard return the set of the user's résumé ids. The query of app.py:112 returns a list in whatever order the database gives, with no `order_by`, so the order is not modelled.
- The `ResumeStore` methods take the decoded submission (`ResumeFields`), not the raw form. `FormDecoder.DecodeResumeForm` is the parsing half of the create and edit handlers. The edit handler repeats the create handler's parsing (app.py:187-222), and it is modelled once.
- The clock is a parameter `now`. The source reads it twice on insert, once for each of the `created_at` and `updated_at` defaults (app.py:44-45); the model reads it once and gives both timestamps that one value.
- ReportLab's layout, fonts, styles and page size are not modelled.
  - A story element is a title, a heading, a paragraph of markup or a spacer.
  - The two spacer heights are the abstract `Wide` (0.2 inch) and `Narrow` (0.1 inch).
  - `doc.build` and the byte buffer are not modelled.
  - ReportLab parses each paragraph's text as markup when the story is built, and the user text is pasted into it unescaped (app.py:296-341). Markup is never parsed in the model. A download whose user text holds malformed markup, such as an unclosed `<b>` in a description, fails with a server error in the source, while `Store.DownloadOf` still gives `Ok`.
- A submission without a title is refused with `MissingTitle`, and the rows stay as they were. This stands for the NOT NULL column making the commit fail.
- A form field that is absent but read with `get` is `None`. The PDF markup then prints it as "None", as Python's f-string does.
- The DOM, `localStorage`, `applyTheme`, `showError`, `clearError`, `scrollToFirstError`, `preventDefault` and event binding are not modelled. Each validator returns the `isValid` it computes. The resume-form validator takes the values of the matched inputs as sequences.
- The other parts of script.js are not modelled, because they only drive the page: the search, filter and chart of `DashboardManager` (static/js/script.js:264-339), `NotificationSystem` (static/js/script.js:342-387), the keyboard shortcuts, smooth scrolling and `enhanceUX` of `ResumeGeneratorApp` (static/js/script.js:390-475), and `utils.debounce`, `utils.formatDate` and `utils.generatePDFPreview` (static/js/script.js:484-502 and 509-512). `DynamicFormManager` (static/js/script.js:211-261) only binds the Enter rule for skills and awards, which is modelled.
- ClientScript.TruncateText: counts `maxLength` in characters (code points), not UTF-16 units, so a text with characters outside the basic plane is cut at a different place than `substr` would cut it. The limit is an integer: a fractional limit, which `substr` truncates, and a missing one, for which the source returns the whole text followed by `...`, are not modelled; nothing in script.js calls the helper.
- ClientScript.AfterEnterKeepsTokens: requires a text without U+FEFF. JavaScript's `trim` removes that character and Python's `strip` does not, so a text holding it next to a token can give a different token after Enter.
- The regular-expression engine of `isValidEmail` is not modelled. The pattern's meaning is written down directly as `MatchesEmailPattern`, and the computed test is proved to agree with it.
