# MEL client model

A Dafny model of the client of a promotion-roster ("MEL", Master Eligibility List)
workflow. A unit uploads a roster, reviews the members the service sorted into eligible,
ineligible, discrepancy, below-the-zone and small-unit buckets, adds, edits or deletes
members, enters a senior rater for every PASCODE, and downloads the generated document.

Each React component of the core is one Dafny module:

| module | component | form |
|---|---|---|
| `Workflow` | the four-step controller (`MELWorkflow.jsx`) | class `MelWorkflow` around a pure filename and endpoint choice |
| `RosterPreview` | the review step (`RosterPreview.jsx`) | pure transform, filter and page slice; class `RosterView` for its handlers |
| `PascodeForm` | the senior-rater step (`PascodeForm.jsx`) | pure validity gate and payload; a seeding loop; class `PascodeFormState` |
| `AddMember`, `EditMember`, `DeleteMember` | the member dialogs | pure checks and resolution table; one class per dialog |
| `FileUpload`, `LogoUpload` | the upload form and the logo dialog | pure check chains; one class each |

Three further modules hold shared pieces:

- `Common`: optional values, the outcome of a remote call, and the error text every dialog shows.
- `Text`: ASCII lower-casing, substring search, `${n}` and `parseInt`.
- `Roster`: the records the client passes around, and the synthetic member ids with their parser.

Conventions:

- Each `useState` variable of the modelled state is a class field (the logo dialog's `preview` and the senior-rater form's `currentTab` are not), and each handler is a method that assigns only the fields named in its `modifies` clause.
- Each awaited remote call or parent callback is a `Result` parameter: the call either resolves or throws.
- A handler returns the request it sent. When it returns `None`, no call was made.
- JavaScript truthiness is written out. A string is truthy when it is non-empty. An absent record field is a missing map key. A `NaN` from `parseInt` is `None`.

## Model

| member | source | states |
|---|---|---|
| Common.ErrorText | src/components/AddMemberModal.jsx:107 | the message shown for a failed call is the service's detail if present, else the exception message, else the dialog's fallback, so it is never empty |
| Text.ToLower | src/components/RosterPreview.jsx:216-217 | `toLowerCase` keeps the length and lowers each ASCII capital, leaving every other character |
| Text.ContainsLower | src/components/RosterPreview.jsx:216-217 | a literal occurrence of the term is also a case-insensitive one |
| Text.NatToString | src/components/RosterPreview.jsx:142 | `${index}` is a non-empty digit string with no leading zero |
| Text.NatToStringRoundTrip | src/components/RosterPreview.jsx:142 | the digits printed for an index denote that index |
| Text.ParseInt | src/components/EditMemberModal.jsx:225 | `parseInt` is NaN exactly when no digit follows the white space and the optional sign |
| Text.ParseIntOrZero | src/components/EditMemberModal.jsx:225 | `parseInt(v) \|\| 0` is the parsed number, or 0 for NaN |
| Text.ParseIntRoundTrip | src/components/FileUpload.jsx:155 | a safe integer (at most 2^53 - 1 in magnitude) typed as its decimal text, followed by anything but a digit, is read back as itself |
| Roster.KeyInjective | src/components/RosterPreview.jsx:189-193 | the five bucket keys are distinct |
| Roster.PresentOrZero | src/components/RosterPreview.jsx:154 | `v !== undefined ? v : 0`: only an absent UIF code becomes 0 |
| Roster.MemberId | src/components/RosterPreview.jsx:142 | the synthetic id `row_<category>_<index>` |
| Roster.ParseMemberId | src/components/RosterPreview.jsx:142 | reads a synthetic id back as its bucket and index |
| Roster.WithField | src/components/AddMemberModal.jsx:52-57 | `{...prev, [field]: value}` sets that field and leaves every other field and the UIF code as they were |
| Roster.MemberIdRoundTrip | src/components/RosterPreview.jsx:142 | the id `row_<category>_<index>` reads back as its bucket and index |
| Roster.ParseMemberIdSound | src/components/RosterPreview.jsx:142 | every id the parser accepts is the synthetic id of what it returns |
| Roster.MemberIdInjective | src/components/RosterPreview.jsx:142 | two rows share a synthetic id only if they are the same row of the same bucket |
| RosterPreview.ConvertRow | src/components/RosterPreview.jsx:141-161 | a converted row has its synthetic id, is editable, has exactly the sixteen text columns with a missing one as "", a missing UIF code as 0 while a `null` one is kept, and a reason only when one is present |
| RosterPreview.ConvertDataframeToMembers | src/components/RosterPreview.jsx:138-162 | conversion keeps the length and the order: element i is row i converted with index i |
| RosterPreview.ConvertedIdsDistinct | src/components/RosterPreview.jsx:142 | converted members of one bucket have pairwise distinct ids |
| RosterPreview.ConvertedIdsDistinctAcrossBuckets | src/components/RosterPreview.jsx:142 | members converted from two different buckets never share an id |
| RosterPreview.TransformSessionDataToPreview | src/components/RosterPreview.jsx:90-203 | null iff there is no session. With neither `eligible_df` nor `dataframe`: the minimal preview, with its note, empty buckets and every count 0 except the error count. Otherwise the full preview: each bucket converted from its dataframe, the counts equal to the bucket sizes, the processed total the sum of the four non-small-unit buckets, and the errors falling back to `error_log`. Both variants carry the PASCODEs and the PASCODE-to-unit map, `{}` when absent |
| RosterPreview.SmallUnitNotCounted | src/components/RosterPreview.jsx:166-180 | the small-unit dataframe does not change the statistics |
| RosterPreview.TabCategory | src/components/RosterPreview.jsx:209-210 | tabs 0..4 select eligible, ineligible, discrepancy, btz and small_unit; any other index selects nothing |
| RosterPreview.CurrentCategoryMembers | src/components/RosterPreview.jsx:205-213 | without roster data, or for an unknown tab, the list is empty; otherwise it is the selected bucket |
| RosterPreview.MatchesSearch | src/components/RosterPreview.jsx:215-219 | the search predicate: lower-cased FULL_NAME or ASSIGNED_PAS contains the lower-cased term, or SSAN contains the term as typed |
| RosterPreview.FilterMembers | src/components/RosterPreview.jsx:215-219 | a member is kept iff its lower-cased name or PASCODE contains the lower-cased term, or its SSAN contains the term as typed; each matching member is kept as often as it occurs and no other is kept, and the result is an order-preserving subsequence of the bucket |
| RosterPreview.EmptySearchKeepsAll | src/components/RosterPreview.jsx:215-219 | an empty search keeps the whole bucket, as long as every member has a FULL_NAME field (every converted member does) |
| RosterPreview.VisibleRows | src/components/RosterPreview.jsx:588-589 | the visible rows are the filtered rows from `page*rpp` on, clamped at the end, and there are at most `rpp` of them |
| RosterPreview.PagesUpToIsPrefix | src/components/RosterPreview.jsx:588-589 | the first n pages, one after another, are the first `n*rpp` filtered rows |
| RosterPreview.PagesCoverFiltered | src/components/RosterPreview.jsx:588-589 | paging loses no row and repeats none: all pages together are the filtered list |
| RosterPreview.RosterView.constructor | src/components/RosterPreview.jsx:45-51 | the review starts loading, on page 0 of tab 0, with 25 rows per page and an empty search |
| RosterPreview.RosterView.VisibleMembers | src/components/RosterPreview.jsx:588-589 | the table shows at most `rowsPerPage` rows, each from the selected bucket and each matching the search |
| RosterPreview.RosterView.LoadRosterData | src/components/RosterPreview.jsx:66-88 | the preview is requested for page+1 at the current page size; a failed request falls back to the transform of the session instead of setting an error; loading ends |
| RosterPreview.RosterView.HandleSearchChange | src/components/RosterPreview.jsx:552 | typing a search sets only the term |
| RosterPreview.RosterView.HandleTabChange | src/components/RosterPreview.jsx:235-238 | changing the tab goes back to page 0 |
| RosterPreview.RosterView.HandleChangePage | src/components/RosterPreview.jsx:240-242 | changing the page sets only the page |
| RosterPreview.RosterView.HandleChangeRowsPerPage | src/components/RosterPreview.jsx:244-247 | a new page size, one of 10, 25, 50 and 100, goes back to page 0 |
| RosterPreview.RosterView.HandleEditMember | src/components/RosterPreview.jsx:221-224 | the row's member is selected and the edit dialog opens |
| RosterPreview.RosterView.HandleDeleteMember | src/components/RosterPreview.jsx:226-229 | the row's member is selected and the delete dialog opens |
| RosterPreview.RosterView.HandleAddMember | src/components/RosterPreview.jsx:231-233 | the add dialog opens |
| RosterPreview.RosterView.HandleOpenLogo | src/components/RosterPreview.jsx:284 | the logo dialog opens |
| RosterPreview.RosterView.CloseEditModal | src/components/RosterPreview.jsx:674-681 | the edit dialog closes and the selection is cleared |
| RosterPreview.RosterView.CloseDeleteDialog | src/components/RosterPreview.jsx:711-718 | the delete dialog closes and the selection is cleared |
| RosterPreview.RosterView.CloseAddModal | src/components/RosterPreview.jsx:689-693 | the add dialog closes |
| RosterPreview.RosterView.CloseLogoModal | src/components/RosterPreview.jsx:700-704 | the logo dialog closes |
| PascodeForm.Set | src/components/PascodeForm.jsx:59-64 | a single-field update changes that field of a record and no other |
| PascodeForm.SubmitPayload | src/components/PascodeForm.jsx:72-77 | the payload is the PASCODE records, plus `small_unit_sr` iff a small-unit rater is needed and its rater id is non-empty; every PASCODE record is carried unchanged unless that small-unit record replaces a PASCODE literally named `small_unit_sr` |
| PascodeForm.SeedRecords | src/components/PascodeForm.jsx:35-45 | the seeding loop makes exactly one record per PASCODE, each one blank |
| PascodeForm.UpdatePascode | src/components/PascodeForm.jsx:49-57 | `handlePascodeChange` changes only field f of PASCODE p; every other record is unchanged |
| PascodeForm.IsFormValid | src/components/PascodeForm.jsx:86-102 | the gate: every PASCODE record has all four fields filled in, and so does the small-unit record when the roster needs one |
| PascodeForm.SubmitEnabled | src/components/PascodeForm.jsx:357 | the submit button is enabled when nothing is submitting and the form is valid |
| PascodeForm.SeededValidity | src/components/PascodeForm.jsx:86-102 | a freshly seeded form is valid iff there is no PASCODE and no small-unit rater is needed |
| PascodeForm.ClearingBlocks | src/components/PascodeForm.jsx:86-102 | clearing any field of any PASCODE record makes the form invalid |
| PascodeForm.FillingLastFieldOpens | src/components/PascodeForm.jsx:86-102 | filling the last missing field makes the form valid |
| PascodeForm.ValidNeededCarriesSmallUnit | src/components/PascodeForm.jsx:72-77 | whenever the button can be pressed on a roster that needs a small-unit rater, the payload carries that rater's record |
| PascodeForm.PayloadWeakerThanGate | src/components/PascodeForm.jsx:75 | a small-unit record with only its rater id is put in the payload although the form is not valid |
| PascodeForm.SubmitGate | src/components/PascodeForm.jsx:357 | the button is disabled while submitting, and otherwise enabled exactly when the form is valid |
| PascodeForm.PascodeFormState.constructor | src/components/PascodeForm.jsx:23-31 | the form starts with no records, a blank small-unit record, not submitting and no error |
| PascodeForm.PascodeFormState.Seed | src/components/PascodeForm.jsx:34-47 | with a PASCODE list the records become one blank record per PASCODE; without one nothing changes |
| PascodeForm.PascodeFormState.HandlePascodeChange | src/components/PascodeForm.jsx:49-57 | the records become `UpdatePascode` of the old records |
| PascodeForm.PascodeFormState.HandleSmallUnitChange | src/components/PascodeForm.jsx:59-64 | only field f of the small-unit record changes |
| PascodeForm.PascodeFormState.HandleSubmit | src/components/PascodeForm.jsx:66-84 | the session id and the payload go to the parent without a new validity check; a failure shows its message, ends the submission and keeps the data; a success leaves `submitting` set |
| AddMember.SmallUnitNotOffered | src/components/AddMemberModal.jsx:24-29 | the four add categories are exactly those other than small_unit |
| AddMember.DefaultForm | src/components/AddMemberModal.jsx:32-45 | a fresh form has the eleven text fields all blank except GRADE, which is the cycle or SSG, and REENL_ELIG_STATUS, which is 1A; UIF_CODE is 0 |
| AddMember.DefaultGradeOffered | src/components/AddMemberModal.jsx:23-34 | the grade a fresh form starts with is one the grade selector offers, whenever the cycle is one the upload form offers or none |
| AddMember.HasRequiredFields | src/components/AddMemberModal.jsx:82-86 | each of the six required fields is present and non-empty |
| AddMember.ValidationError | src/components/AddMemberModal.jsx:82-91 | the save goes through iff the six required fields and the reason are all non-empty; a missing required field is reported before a missing reason |
| AddMember.DefaultFormRejected | src/components/AddMemberModal.jsx:82-86 | a fresh form cannot be saved |
| AddMember.FillSets | src/components/AddMemberModal.jsx:52-57 | successive field changes add those fields, leave the others, and leave each changed field non-empty when every value written is |
| AddMember.FilledDefaultAccepted | src/components/AddMemberModal.jsx:82-91 | filling only the six required fields of a fresh form, and giving a reason, is enough for the save to go through |
| AddMember.AddMemberModal.constructor | src/components/AddMemberModal.jsx:32-50 | the dialog starts from the default form, category eligible, no reason, no eligibility check and no error |
| AddMember.AddMemberModal.HandleChange | src/components/AddMemberModal.jsx:52-57 | a field change sets that field and no other |
| AddMember.AddMemberModal.SetCategory | src/components/AddMemberModal.jsx:141 | choosing a category sets it, and it stays one of the four offered |
| AddMember.AddMemberModal.SetReason | src/components/AddMemberModal.jsx:298 | typing a reason sets only the reason |
| AddMember.AddMemberModal.SetRunEligibilityCheck | src/components/AddMemberModal.jsx:309 | the checkbox sets only the eligibility-check flag |
| AddMember.AddMemberModal.HandleReset | src/components/AddMemberModal.jsx:59-78 | a reset restores the default form, category eligible, no reason, the check off and no error |
| AddMember.AddMemberModal.HandleSave | src/components/AddMemberModal.jsx:80-111 | a failed check shows its message and sends nothing. Otherwise exactly category, form data, reason and check flag are sent. A success resets the dialog; a failure keeps the form and shows the service's message. `saving` ends false |
| AddMember.AddMemberModal.HandleClose | src/components/AddMemberModal.jsx:113-116 | closing resets the dialog |
| EditMember.ResolveFirstFilled | src/components/EditMemberModal.jsx:33-49 | a form field takes the first of its source fields that is filled in, and the default only when none is |
| EditMember.EditRules | src/components/EditMemberModal.jsx:33-49 | the resolution table: for each of the fifteen form fields, the member fields it is read from, in order, and its default |
| EditMember.Resolve | src/components/EditMemberModal.jsx:33-49 | `m[a0] \|\| m[a1] \|\| … \|\| default` over a rule's aliases |
| EditMember.EditFormFor | src/components/EditMemberModal.jsx:33-49 | the form has exactly the fields of the resolution table, so no SSAN, and the member's UIF code, 0 when it has none and `null` kept as `null` |
| EditMember.ReenlistmentStatusResolved | src/components/EditMemberModal.jsx:43 | REENL_ELIG_STATUS takes the canonical field if it is filled, else REENLISTMENT_ELIGIBILITY_STATUS, else "" |
| EditMember.ProjectedGradeResolved | src/components/EditMemberModal.jsx:45 | GRADE_PERM_PROJ takes the canonical field if it is filled, else GRADE_PERMANENT_PROJECTED, else "" |
| EditMember.PlainFieldsResolved | src/components/EditMemberModal.jsx:34-48 | GRADE is the member's or SSG; every other un-aliased field is the member's or "" |
| EditMember.EditRulesSelfFirst | src/components/EditMemberModal.jsx:33-49 | every rule reads its own field first, and no alias is itself a form field |
| EditMember.ResolveAgainstForm | src/components/EditMemberModal.jsx:33-49 | resolving a rule against a form that holds its field gives that field back |
| EditMember.EditFormIdempotent | src/components/EditMemberModal.jsx:29-54 | reopening the dialog on the record it shows gives the same form |
| EditMember.UifInputRoundTrip | src/components/EditMemberModal.jsx:225 | a safe integer typed as its digits is stored as that code |
| EditMember.UifInputNotANumber | src/components/EditMemberModal.jsx:225 | text that does not start with a sign or a digit is stored as 0 |
| EditMember.EditMemberModal.constructor | src/components/EditMemberModal.jsx:25-27 | the dialog starts with an empty form, not saving and no error |
| EditMember.EditMemberModal.OnMemberChange | src/components/EditMemberModal.jsx:29-54 | a member seeds the form and clears the error; no member leaves both as they were |
| EditMember.EditMemberModal.HandleChange | src/components/EditMemberModal.jsx:56-61 | a field change sets that field and no other |
| EditMember.EditMemberModal.HandleUifChange | src/components/EditMemberModal.jsx:225 | the UIF code becomes the parsed number, and nothing else changes |
| EditMember.EditMemberModal.HandleSave | src/components/EditMemberModal.jsx:63-75 | with no check, the whole form is sent under the member's id; a failure sets the message; `saving` ends false |
| DeleteMember.DeleteCheck | src/components/DeleteConfirmDialog.jsx:27-30 | the delete goes through iff the reason is non-empty |
| DeleteMember.DeleteEnabled | src/components/DeleteConfirmDialog.jsx:135 | the confirm button is enabled when there is a reason and no delete is in flight |
| DeleteMember.EnabledPassesCheck | src/components/DeleteConfirmDialog.jsx:135 | a press of the enabled button always passes the reason check |
| DeleteMember.DeleteConfirmDialog.constructor | src/components/DeleteConfirmDialog.jsx:21-24 | the dialog starts with no reason, a soft delete and no error |
| DeleteMember.DeleteConfirmDialog.SetReason | src/components/DeleteConfirmDialog.jsx:102 | typing a reason sets only the reason |
| DeleteMember.DeleteConfirmDialog.SetHardDelete | src/components/DeleteConfirmDialog.jsx:112 | the checkbox sets only the hard-delete flag |
| DeleteMember.DeleteConfirmDialog.HandleDelete | src/components/DeleteConfirmDialog.jsx:26-45 | without a reason nothing is sent, whatever the hard-delete flag. Otherwise the member id, the reason and the flag are sent; a success clears the reason and the flag, and a failure keeps both and shows the message |
| DeleteMember.DeleteConfirmDialog.HandleClose | src/components/DeleteConfirmDialog.jsx:47-52 | closing clears the reason, the flag and the error |
| FileUpload.CheckUpload | src/components/FileUpload.jsx:57-70 | the upload goes through iff a file, a cycle and a valid year are present, and the first missing one is the one reported |
| FileUpload.ValidYear | src/components/FileUpload.jsx:67 | a year is a number, not 0, from 2000 to 2100 |
| FileUpload.OfferedCyclesPass | src/components/FileUpload.jsx:20-28 | every cycle the selector offers passes the cycle check, so with a file only the year can fail |
| FileUpload.SubmitEnabled | src/components/FileUpload.jsx:175 | the submit button is enabled when a file and a cycle are chosen and no upload runs |
| FileUpload.YearBounds | src/components/FileUpload.jsx:67 | a year is valid iff it is a number from 2000 to 2100, both bounds included |
| FileUpload.EnabledLeavesOnlyYear | src/components/FileUpload.jsx:175 | through the enabled button only the year can still be refused |
| FileUpload.TypedYearChecked | src/components/FileUpload.jsx:67 | a safe integer typed as a year is accepted iff it lies in the bounds |
| FileUpload.FileUploadForm.constructor | src/components/FileUpload.jsx:31-35 | the form starts with no file, no cycle and the current year |
| FileUpload.FileUploadForm.OnDrop | src/components/FileUpload.jsx:37-42 | a non-empty drop selects the first file and clears the error; an empty one changes nothing |
| FileUpload.FileUploadForm.SetCycle | src/components/FileUpload.jsx:137 | choosing a cycle sets only the cycle |
| FileUpload.FileUploadForm.SetYear | src/components/FileUpload.jsx:155 | the year becomes the parsed input |
| FileUpload.FileUploadForm.HandleSubmit | src/components/FileUpload.jsx:54-82 | the parent's handler gets file, cycle and year iff every check passes; a failed check shows its message; a failed upload shows the service's; `uploading` ends false |
| LogoUpload.SizeLimit | src/components/LogoUploadModal.jsx:32 | exactly 5 MiB is accepted and one byte more is refused |
| LogoUpload.SizeAllowed | src/components/LogoUploadModal.jsx:32 | a file is allowed when it is at most 5 MiB |
| LogoUpload.UploadEnabled | src/components/LogoUploadModal.jsx:228 | the upload button is enabled when a file is chosen and nothing is in flight |
| LogoUpload.DeleteShown | src/components/LogoUploadModal.jsx:211 | the remove button is shown only while a custom logo is uploaded |
| LogoUpload.DefaultLogoNotRemovable | src/components/LogoUploadModal.jsx:211-215 | without an uploaded custom logo there is no remove button |
| LogoUpload.LogoUploadModal.constructor | src/components/LogoUploadModal.jsx:21-24 | the dialog starts with no file chosen, nothing in flight and no error |
| LogoUpload.LogoUploadModal.OnDrop | src/components/LogoUploadModal.jsx:27-47 | a file above 5 MiB is refused with a message and the earlier choice is kept; a file within it is chosen and the message cleared |
| LogoUpload.LogoUploadModal.HandleUpload | src/components/LogoUploadModal.jsx:59-78 | no file means no call and a message. Otherwise, exactly when the upload button is enabled, the file is uploaded; a success clears the choice and a failure keeps it and shows the message |
| LogoUpload.LogoUploadModal.HandleDelete | src/components/LogoUploadModal.jsx:80-92 | the removal is always sent; a failure shows the message; the choice stays |
| LogoUpload.LogoUploadModal.HandleClose | src/components/LogoUploadModal.jsx:94-99 | closing clears the choice and the message |
| Workflow.EndpointsFollowKind | src/components/MELWorkflow.jsx:39 | each kind has its own upload endpoint and its own generation endpoint |
| Workflow.Path | src/services/api.js:21-62 | the four endpoint paths |
| Workflow.DownloadFilename | src/components/MELWorkflow.jsx:66 | the name `<kind>_mel_<session id>.pdf` has the length of its three parts and the fixed text |
| Workflow.FilenameRoundTrip | src/components/MELWorkflow.jsx:66 | the download name reads back as the kind and session id it was made from |
| Workflow.ParseFilename | src/components/MELWorkflow.jsx:66 | reads a download name back as the kind and the session id |
| Workflow.FilenameInjective | src/components/MELWorkflow.jsx:66 | two downloads share a name only for the same kind and the same session |
| Workflow.MelWorkflow.constructor | src/components/MELWorkflow.jsx:32-35 | the workflow starts on the upload step, initial kind, with no session and no document |
| Workflow.MelWorkflow.HandleFileUpload | src/components/MELWorkflow.jsx:37-46 | the kind's upload endpoint is called. A success stores the response with cycle and year as the session and opens step 1. A failure is rethrown and changes nothing |
| Workflow.MelWorkflow.HandleContinueToSeniorRater | src/components/MELWorkflow.jsx:48-50 | continuing from review opens step 2 |
| Workflow.MelWorkflow.HandlePascodeSubmit | src/components/MELWorkflow.jsx:52-62 | the kind's generation endpoint is called with the session id and payload. A success keeps the document and opens step 3. A failure is rethrown and changes nothing |
| Workflow.MelWorkflow.HandleDownload | src/components/MELWorkflow.jsx:64-69 | without a document nothing is downloaded; with one the name is `<kind>_mel_<session id>.pdf` |
| Workflow.MelWorkflow.HandleReset | src/components/MELWorkflow.jsx:71-75 | a reset returns to step 0 with no session and no document, and keeps the kind |
| Workflow.MelWorkflow.HandleMelTypeChange | src/components/MELWorkflow.jsx:77-80 | a kind change sets the kind, then resets |
| Workflow.FilledRecords | src/components/PascodeForm.jsx:49-57 | the records of a form in which every PASCODE has been given one rater: one record per PASCODE, each that rater |
| Workflow.FillPascodes | src/components/PascodeForm.jsx:49-57 | typing a rater into the four fields of every PASCODE's tab, through the change handler, leaves exactly those filled records |
| Workflow.CompletedRun | src/components/MELWorkflow.jsx:37-69 | one full run, with every PASCODE's senior rater and the needed small-unit rater filled in, passes the submit button's gate, sends both calls to the kind's endpoints, sends the session's id with the payload of the filled records, and downloads the document under `<kind>_mel_<session id>.pdf` |

Every class keeps a `Valid()` invariant, which its methods require and preserve:

- `MelWorkflow`: the upload step holds no session, every later step holds one, and a document exists exactly on step 3.
- `RosterView`: the page size is one of 10, 25, 50 and 100.
- `AddMemberModal`: the category is one of the four offered.
- `LogoUploadModal`: a chosen logo is within the size limit.
- `AddMemberModal` and `LogoUploadModal`: no request is in flight between events.

## Left out

- The HTTP layer (`src/services/api.js`, `src/services/rosterApi.js`): each call is a `Result` parameter. Its timeout, base URL and multipart encoding are not modelled; only the four endpoint paths are kept.
- `downloadBlob`: it only drives the DOM. `HandleDownload` returns the document and the file name it would be saved under.
- The `FileReader` preview of the logo dialog and the `preview` field: reading the file is a browser callback.
- The drop zones' MIME filtering, and the drop zone's own 5 MB `maxSize`: `OnDrop` receives the files the drop zone accepted.
- `console.*` logging, the JSX rendering, and the tabs of the senior-rater form.
- Async timing and React's batching of state updates. Each handler is one sequential transition. The `saving`, `deleting`, `uploading` and `submitting` flags are set and cleared inside it, so no two requests are ever in flight.
- The clock: `new Date().getFullYear()` is the `currentYear` parameter of the upload form's constructor and of the preview transform.
- The outer `catch` of `loadRosterData` (src/components/RosterPreview.jsx:83-85) is not modelled. The fallback transform cannot throw, so that branch is not reachable in the model and `error` stays cleared.
- The parent reloads that follow a successful add, edit or delete, and "Reprocess All": each one is another `LoadRosterData`.
- The categorisation, reprocessing and document generation done by the service.
- Text.ToLower: lowers ASCII capitals only. JavaScript's `toLowerCase` also maps non-ASCII letters.
- Text.ParseInt: reads decimal digits only. `parseInt` without a radix also reads a `0x` prefix as hexadecimal; the number inputs it is applied to do not produce one.
- Text.ParseInt: reads the digits as an exact integer. JavaScript's `parseInt` returns a double, so beyond 2^53 - 1 it rounds (`parseInt("9007199254740993")` is 9007199254740992). It also skips Unicode white space such as U+00A0 and U+FEFF before the number, while the model skips ASCII white space only.
- Text.ParseIntRoundTrip: stated for safe integers only (magnitude at most 2^53 - 1, `Text.SafeInteger`), the range in which the double `parseInt` returns is exact.
- EditMember.UifInputRoundTrip: stated for safe integers only, for the same reason.
- FileUpload.TypedYearChecked: stated for safe integers only, for the same reason; every year in 2000..2100 is one.
- A UIF_CODE is modelled as absent, `null` or an integer (`Roster.UifValue`). A fractional or string code, which a JSON row could carry, is not modelled.
- PascodeForm.UpdatePascode: a PASCODE with no record starts from a blank record. The source starts from an empty object, which the validity gate treats the same way but which carries fewer keys in the payload. The form only offers seeded PASCODEs.
- Member records with a field that is not a string, such as a number in a text column, are not modelled: every text column is a string.
- Workflow.MelWorkflow.HandleContinueToSeniorRater: requires the review step. The source sets step 2 unconditionally, but its button exists only on the review step. The same holds for uploads (step 0) and senior-rater submits (step 2).

Two behaviours of the code that may be unintended; the model follows the code:

- The small-unit record enters the payload when only its rater id is filled in. The validity gate requires all four of its fields. `PascodeForm.PayloadWeakerThanGate` exhibits the difference.
- After a successful senior-rater submit the form's `submitting` flag is never cleared. The form is unmounted when the step changes.
