# Job board — a verified model

This project models the core of a small job-board application in Dafny:

- the server's job schema (field rules, the title setter, the default, the contact-address pattern);
- the job API, a router of six handlers over the job collection;
- the four client pages that work on job lists and posting forms.

| file | module | models |
|---|---|---|
| `text.dfy` | `Text` | ASCII lower-casing, `includes`, `trim` |
| `email.dfy` | `EmailPattern` | the contact-address regular expression: its grammar and a scanning recogniser, proved equal |
| `job_schema.dfy` | `JobSchema` | the `Job` record, the setters (`Prepare`), the validators (`Valid`, `ValidationErrors`) and the error message |
| `job_routes.dfy` | `JobApi` | the collection as a `JobStore` class, one method per handler, Express's first-match routing |
| `lists.dfy` | `Lists` | order-preserving subsequences |
| `job_list.dfy` | `JobList` | the public list page: search, type and salary filters, badge colours, filter state |
| `my_jobs.dfy` | `MyJobs` | the owner's page: its filter, the list after a delete, "Active Types", card gradients |
| `forms.dfy` | `Forms` | the nine-field posting form, single-field updates, request replies, salary text |
| `job_edit_form.dfy` | `JobEditForm` | the edit page: loading a job into the form, character counts, quality targets, submit flags |
| `job_create.dfy` | `JobCreate` | the create page: dropdown, login guard, message colour |

Text lengths are counted as JavaScript counts them, in UTF-16 code units: a character above U+FFFF counts two (`Text.Utf16Length`).

Absent values are `Option`s. A path missing from a document or request body is `None`.

Document ids are strings. `IsValidId` is the 24-hex-digit form, and `Key` maps an id to the lower-case text under which the collection files it.

The collection stores the ids in insertion order beside the map, so "all jobs" and "the first job of an owner" have a defined order.

Where a handler depends on something outside the model, that thing is a parameter:

- the identity the authentication middleware attaches;
- the id the driver generates;
- the outcome of an HTTP request from a page;
- the user's answer to a confirmation dialog.

The handlers answer as follows (server/routes/jobRoutes.js), which in several places departs from the usual REST conventions:

- A create that fails validation answers 500 with the validation message, where a 4xx is the convention.
- A malformed id on GET answers 400.
- A PUT runs the update validators on the body before it looks the id up. A body they refuse answers 500 `"Failed to update"`, whether or not the id exists. An accepted body under an absent id answers 500 `"not find id"`, where 404 is the convention.
- A malformed id on DELETE answers 500 `"Invaild Id"`.
- GET `/my-jobs` never reaches its own handler. The `/:id` route is registered first, so it answers 400 `"Invaild job id"` (`JobApi.MyJobsShadowed`).

## Model

| member | source | states |
|---|---|---|
| Text.Trim | server/models/Jobs.js:7 | the trimmed title starts and ends with no whitespace, and everything trimming removed around it was whitespace |
| Text.TrimmedFixed | server/models/Jobs.js:7 | a title that is already trimmed is stored unchanged |
| Text.TrimIdempotent | server/models/Jobs.js:7 | trimming a trimmed title changes nothing |
| Text.ToLower | client/src/components/JobList.jsx:62-64 | lower-casing keeps the length and folds each ASCII capital, leaving other characters alone |
| Text.Utf16Length | server/models/Jobs.js:8 | a text's JavaScript length lies between its number of characters and twice that, and is zero only for the empty text |
| Text.BmpLength | server/models/Jobs.js:8 | a text with no character above U+FFFF has as many code units as characters |
| Text.AstralLength | server/models/Jobs.js:8 | a text made only of characters above U+FFFF has twice as many code units as characters |
| Text.IncludesIgnoreCaseEmpty | client/src/components/JobList.jsx:62-64 | the empty search term occurs in every text |
| EmailPattern.Find | server/models/Jobs.js:38 | the position found holds the character and no earlier position does; no position means the character is absent |
| EmailPattern.MatchesEmailIsPattern | server/models/Jobs.js:37-40 | the scanning recogniser accepts exactly the texts the regular expression `^\w+([\.-]?\w+)*@\w+([\.-]?\w+)*(\.\w{2,3})+$` matches |
| EmailPattern.AcceptedContactShape | server/models/Jobs.js:38 | an accepted contact starts with a word character, holds exactly one '@', and ends with '.' and two or three word characters |
| EmailPattern.SampleContactAccepted | server/models/Jobs.js:38 | "hr@acme.com" is accepted |
| EmailPattern.SampleContactWithoutLabelRejected | server/models/Jobs.js:38 | "hr@acme" is refused (no final label) |
| EmailPattern.OneCharacterLabelRejected | server/models/Jobs.js:38 | any address whose last label is a single character, such as "hr@acme.c", is refused |
| EmailPattern.SampleContactDoubleDotRejected | server/models/Jobs.js:38 | "h..r@acme.com" is refused (two separators in a row) |
| JobSchema.KeyCanonical | server/routes/jobRoutes.js:50-53 | a well-formed id leads to a canonical lower-case key |
| JobSchema.Prepare | server/models/Jobs.js:4-51 | after assignment the title is the given title trimmed (absent when not given), responsibilities is the given value or "Not specified", and every other path is as given |
| JobSchema.PrepareIdempotent | server/models/Jobs.js:4-51 | applying the setters to a prepared document changes nothing |
| JobSchema.ValidIsEveryPath | server/models/Jobs.js:3-61 | a job satisfies the schema exactly when each of its ten paths satisfies that path's rules |
| JobSchema.PathErrors | server/models/Jobs.js:3-61 | a path's error list is empty exactly when the path satisfies its rules, holds at most one error, and every error is filed under that path |
| JobSchema.ErrorsFrom | server/models/Jobs.js:3-61 | the errors of the checked paths from a given one on are in schema path order, one path at most once |
| JobSchema.ErrorsFromMembers | server/models/Jobs.js:3-61 | an error is listed exactly when its path is checked, at or after the starting path, and the error is that path's own |
| JobSchema.ErrorsFromEmpty | server/models/Jobs.js:3-61 | no error is listed exactly when every checked path from the starting one satisfies its rules |
| JobSchema.ValidationErrors | server/models/Jobs.js:3-61 | the error list is empty exactly when the job satisfies every field rule, and has at most ten entries |
| JobSchema.ValidationErrorsPerPath | server/models/Jobs.js:3-61 | the listed errors are exactly the errors of the failing paths, in schema path order, no two for the same path |
| JobSchema.UpdateErrors | server/routes/jobRoutes.js:78 | the update validators find nothing exactly when every path the update sets satisfies its rules |
| JobSchema.UpdateErrorsPerPath | server/routes/jobRoutes.js:78 | the update validators report exactly the errors of the paths the update sets, in schema path order; paths it leaves out are not checked |
| JobSchema.ValidHasRequiredFieldsWithinCaps | server/models/Jobs.js:4-61 | a valid job has all nine required paths, and title ≤ 100, description ≤ 1000, company ≤ 50, location ≤ 100, requirements ≤ 500 and responsibilities ≤ 500 |
| JobSchema.MissingFieldReported | server/models/Jobs.js:6-60 | any missing required path, one of nine, is reported under its own path with its own "Please provide …" message |
| JobSchema.SalaryRule | server/models/Jobs.js:25-29 | a salary passes exactly when it is not negative, and a negative one is reported as "Salary cannot be negative" |
| JobSchema.JobTypeRule | server/models/Jobs.js:52-56 | a job type passes exactly when it is one of the five names |
| JobSchema.ValidContactShape | server/models/Jobs.js:34-41 | the contact of a valid job matches the address pattern, starts with a word character and ends with a two- or three-character label |
| JobSchema.PreparedTitle | server/models/Jobs.js:4-9 | a stored title is the trimmed given title, non-empty, at most 100 code units after trimming, and a fixed point of trimming |
| JobSchema.BlankTitleRefused | server/models/Jobs.js:6-7 | a title of only whitespace, of any length (the empty title included), trims to nothing and is reported as missing |
| JobSchema.DefaultKeepsValidity | server/models/Jobs.js:47-51 | "Not specified" fits the 500 cap, so filling it in never changes validity, and it is used only when responsibilities is missing |
| JobApi.NewJob | server/routes/jobRoutes.js:9-29 | the created document is owned by the caller whatever the body says, always gets the default responsibilities, and takes the other eight paths from the body, with the title trimmed |
| JobApi.PatchChangesOnlyGivenPaths | server/routes/jobRoutes.js:78 | for each of the ten paths: a path the body leaves out keeps its stored value, a path the body holds takes the body's value (the title trimmed, `createdBy` included), a path is present afterwards exactly when it was present before or in the body, and an empty body changes nothing |
| JobApi.UpdateValidatorsDecide | server/routes/jobRoutes.js:78 | for a valid stored job, the update validators accept the body exactly when the updated document is valid |
| JobApi.PatchKeepsPrepared | server/routes/jobRoutes.js:78 | an updated document still has a trimmed title and a responsibilities value |
| JobApi.Without | server/routes/jobRoutes.js:94 | removing an id from the ordering drops exactly that id and keeps the ordering free of repeats |
| JobApi.FirstOwnedBy | server/routes/jobRoutes.js:65 | `findOne` yields the first job in collection order owned by the caller, or nothing when the caller owns none |
| JobApi.JobStore.Postings | server/routes/jobRoutes.js:40 | the listing holds every stored job once, in insertion order, each with its stored document |
| JobApi.JobStore.Create | server/routes/jobRoutes.js:7-37 | a valid new job is stored under the fresh id and answered with 201 and the saved document; an invalid one gets 500 with "Failed to create job" and the validation message, and the store is unchanged |
| JobApi.JobStore.AllJobs | server/routes/jobRoutes.js:38-46 | 200 with every stored job, one entry per job, and nothing else; the store is only read |
| JobApi.JobStore.GetById | server/routes/jobRoutes.js:47-62 | 400 for a malformed id, 404 for a well-formed absent one, 200 with exactly the stored job otherwise; the store is only read |
| JobApi.JobStore.MyJobs | server/routes/jobRoutes.js:63-71 | 200 with one job the caller owns, or null exactly when the caller owns none |
| JobApi.JobStore.Insert | server/routes/jobRoutes.js:30 | a new key enters the map with its document and is appended to the ordering |
| JobApi.JobStore.Replace | server/routes/jobRoutes.js:78 | a stored key gets the new document; the ordering and the other jobs are unchanged |
| JobApi.JobStore.Update | server/routes/jobRoutes.js:72-87 | 500 "failed to fetch id" for a malformed id; then, before any lookup, 500 "Failed to update" and no change when the update validators refuse the body; then 500 "not find id" for an absent id; otherwise only that job is replaced by the update, whoever owns it; for a stored job the validators accept exactly when the updated document is valid; every non-200 answer carries only an `error` |
| JobApi.JobStore.Delete | server/routes/jobRoutes.js:88-104 | 500 for a malformed id, 404 for an absent one, otherwise that job leaves the map and the ordering, whoever owns it, with 200 "Job Deleted Successfully" |
| JobApi.JobStore.Serve | server/routes/jobRoutes.js:5-106 | a request no route matches changes nothing; a GET for "my-jobs" is answered 400 by the by-id handler |
| JobApi.CreateReadDelete | server/routes/jobRoutes.js:7-104 | create then read gives 201 and 200 with the same document; delete then read gives 200 and 404 |
| JobApi.FirstMatch | server/routes/jobRoutes.js:7-104 | the chosen route matches and no route registered before it does; no choice means no route matches |
| JobApi.MyJobsShadowed | server/routes/jobRoutes.js:47-52 | GET "my-jobs", in any letter case, resolves to the by-id handler, and "my-jobs" is a malformed id |
| JobApi.MyJobsUnreachable | server/routes/jobRoutes.js:63-71 | no request resolves to the my-jobs handler |
| Lists.SubsequenceBounds | client/src/components/JobList.jsx:349-350 | a filtered list is no longer than the full one and holds only its entries |
| JobList.ValidJobSearchable | client/src/components/JobList.jsx:62-64 | every valid job has the three paths the search reads |
| JobList.FilterJobs | client/src/components/JobList.jsx:61-88 | the visible list is an order-preserving subsequence holding exactly the jobs that pass search, type and salary, each as many times as in the full list; when all pass it is the whole list |
| JobList.DefaultsPassEverything | client/src/components/JobList.jsx:62-65 | the empty search, "All" types and "All" salaries let any job through |
| JobList.DefaultFiltersShowAll | client/src/components/JobList.jsx:27-29 | with the initial filters the visible list is the full list |
| JobList.BandsPartition | client/src/components/JobList.jsx:69-81 | every salary lies in exactly one of the four bands |
| JobList.SalaryRule | client/src/components/JobList.jsx:67-84 | the salary test passes for "All", an unknown key, or a missing or zero salary, and otherwise is the band test |
| JobList.OutOfBandHidden | client/src/components/JobList.jsx:67-88 | a job with a salary outside the chosen band is not shown |
| JobList.JobTypeColor | client/src/components/JobList.jsx:113-122 | the grey fallback is given exactly to a type outside the five, and a known type gets one of the five colours |
| JobList.TypeColorsDistinct | client/src/components/JobList.jsx:114-120 | the colour table's keys are the schema's job types, each with its own colour |
| JobList.JobListPage.constructor | client/src/components/JobList.jsx:24-29 | the page mounts with no jobs, the empty search and "All" for type and salary |
| JobList.JobListPage.Visible | client/src/components/JobList.jsx:61-88 | the shown jobs are a subsequence of the fetched ones |
| JobList.JobListPage.Loaded | client/src/components/JobList.jsx:38-39 | a fetch replaces the list and keeps the filters |
| JobList.JobListPage.SetSearchTerm | client/src/components/JobList.jsx:288 | only the search term changes |
| JobList.JobListPage.SetSelectedType | client/src/components/JobList.jsx:296 | only the type filter changes |
| JobList.JobListPage.SetSalaryRange | client/src/components/JobList.jsx:329 | only the salary filter changes |
| JobList.JobListPage.ClearFilters | client/src/components/JobList.jsx:197-201 | both clear buttons (also lines 354-358) restore "", "All", "All", keep the list, and then every job shows |
| JobList.JobListPage.Counts | client/src/components/JobList.jsx:349-350 | "Showing n of m": n is the visible count, m the full count, and n ≤ m |
| MyJobs.FilterPostings | client/src/components/Myjobs.jsx:85-90 | an order-preserving subsequence holding exactly the postings whose title or company contains the term, ignoring case, and whose type matches ("All" matches any), each as many times as in the page's list |
| MyJobs.DefaultFiltersShowAll | client/src/components/Myjobs.jsx:32-33 | the empty search and "All" show every posting |
| MyJobs.RemoveId | client/src/components/Myjobs.jsx:68 | after a delete, every entry with that id is gone, the others stay in order, the list shrinks by the number of matching entries, and an absent id changes nothing |
| MyJobs.CountId | client/src/components/Myjobs.jsx:68 | the count of entries with an id is zero exactly when no entry has it |
| MyJobs.TypesOf | client/src/components/Myjobs.jsx:183 | the "Active Types" set is exactly the types present, a missing type counting as one, and is no larger than the list |
| MyJobs.ActiveTypesBound | client/src/components/Myjobs.jsx:183 | "Active Types" is at most the number of postings, and at most five when every type is a schema type |
| MyJobs.JobTypeGradient | client/src/components/Myjobs.jsx:92-101 | the slate fallback is given exactly to a type outside the five |
| MyJobs.CardGradient | client/src/components/Myjobs.jsx:103-113 | a card's gradient is always one of the six |
| MyJobs.CardGradientCycle | client/src/components/Myjobs.jsx:103-113 | gradients repeat every six cards, the first six cards take the list in order, and neighbouring cards differ |
| MyJobs.MyJobsPage.constructor | client/src/components/Myjobs.jsx:30-33 | the page mounts with no postings, loading, the empty search and "All" |
| MyJobs.MyJobsPage.FetchMyJobs | client/src/components/Myjobs.jsx:41-59 | a 2xx answer's list becomes the page's list; any other status is reported as a failure and the list stays; loading ends either way |
| MyJobs.OpenPage | client/src/components/Myjobs.jsx:29-59 | mounting against this server, the request for my-jobs fails, so the page ends not loading with an empty list and nothing shown, and the store is untouched |
| MyJobs.MyJobsPage.Visible | client/src/components/Myjobs.jsx:85-90 | the shown postings are a subsequence of the page's list |
| MyJobs.MyJobsPage.HandleDelete | client/src/components/Myjobs.jsx:61-74 | without confirmation nothing is sent and nothing changes; after a successful delete the list is the old list without that id; a failed delete changes nothing |
| MyJobs.MyJobsPage.SetSearchTerm | client/src/components/Myjobs.jsx:218 | only the search term changes |
| MyJobs.MyJobsPage.SetFilterType | client/src/components/Myjobs.jsx:225 | only the type filter changes |
| MyJobs.MyJobsPage.ClearFilters | client/src/components/Myjobs.jsx:253-256 | the search becomes "" and the type "All", the list stays, and every posting shows |
| MyJobs.MyJobsPage.ActiveTypes | client/src/components/Myjobs.jsx:183 | the figure shown never exceeds the number of postings |
| Forms.Set | client/src/components/JobEditform.jsx:95-98 | a field update gives the named field the new value and leaves every other field as it was |
| Forms.FieldsDetermineForm | client/src/components/JobEditform.jsx:31-41 | a form is determined by its nine field values |
| Forms.SetLaws | client/src/components/JobEditform.jsx:95-98 | writing back a field's own value changes nothing, and of two writes to one field the later wins |
| Forms.FailureText | client/src/components/JobEditform.jsx:113 | a non-empty server message is shown as it is; a missing or empty one gives the page's fallback |
| Forms.DecimalText | client/src/components/JobEditform.jsx:69 | a number shows as decimal digits with no leading zero |
| Forms.DecimalRoundTrip | client/src/components/JobEditform.jsx:69 | the digits of a natural number read back as that number |
| Forms.NumberRoundTrip | client/src/components/JobEditform.jsx:69 | a salary shown in the form and sent back untouched reads back as the same number |
| JobEditForm.TextOrBlank | client/src/components/JobEditform.jsx:65 | a text path loads as its value, or '' when missing |
| JobEditForm.LoadForm | client/src/components/JobEditform.jsx:64-74 | each text field loads as the job's value or ''; the salary as `SalaryField`; the type as the job's own non-empty type or 'Full-time' |
| JobEditForm.SalaryField | client/src/components/JobEditform.jsx:69 | a missing salary and a salary of 0 both load blank; any other salary loads as text that reads back as the salary |
| JobEditForm.LoadStoredJob | client/src/components/JobEditform.jsx:64-74 | a stored job loads with its own title, description and one of the five types |
| JobEditForm.QualityOfForm | client/src/components/JobEditform.jsx:476-492 | an indicator is green exactly when its field reaches 200, 150 or 150 code units, and editing one field leaves the other indicators alone |
| JobEditForm.InputLimitsExceedCaps | client/src/components/JobEditform.jsx:345-372 | the text areas allow 1500, 1000 and 1000 code units, above the caps of 1000, 500 and 500; an update with text between the two limits is refused whatever the stored job |
| JobEditForm.TypeButtonsAreSchemaTypes | client/src/components/JobEditform.jsx:126-132 | the type buttons are exactly the schema's five types, in order |
| JobEditForm.EditPage.constructor | client/src/components/JobEditform.jsx:31-48 | the page mounts with every text field '' and jobType 'Full-time', loading, not updating, no error, no success, and counts of zero |
| JobEditForm.EditPage.Loaded | client/src/components/JobEditform.jsx:64-74 | the form becomes the loaded job, the counts follow it, and loading ends |
| JobEditForm.EditPage.LoadFailed | client/src/components/JobEditform.jsx:76-81 | the error becomes the load-failure text, the form stays, and loading ends |
| JobEditForm.EditPage.HandleChange | client/src/components/JobEditform.jsx:95-98 | only the named field changes, and the character counts are those of the new form |
| JobEditForm.EditPage.SelectJobType | client/src/components/JobEditform.jsx:311 | only the job type changes, to one of the five types |
| JobEditForm.EditPage.StartSubmit | client/src/components/JobEditform.jsx:100-106 | busy, error cleared, and the current form goes out unchanged |
| JobEditForm.EditPage.FinishSubmit | client/src/components/JobEditform.jsx:106-116 | success is set only on success; a failure sets the server's message or the fallback; never busy afterwards |
| JobEditForm.EditPage.HandleSubmit | client/src/components/JobEditform.jsx:100-117 | the whole submit: form sent as it was, error cleared unless the request failed, success only on success, never busy afterwards |
| JobEditForm.UpdateRefusalsShowFallback | client/src/components/JobEditform.jsx:113 | an answer with only an `error`, which is every non-200 answer of the update handler (`JobApi.JobStore.Update`), carries no `message`, so the page shows its fallback text |
| JobCreate.TypeOptionsAreSchemaTypes | client/src/components/JobCreate.jsx:39 | the dropdown offers exactly the schema's five types |
| JobCreate.MessageColours | client/src/components/JobCreate.jsx:307-311 | the login prompt shows red; the page's own failure text shows green |
| JobCreate.FailureColour | client/src/components/JobCreate.jsx:307-311 | a failure message shows red exactly when the server sent a non-empty message containing "log in"; the fallback text is green |
| JobCreate.CreatePage.constructor | client/src/components/JobCreate.jsx:22-36 | the page mounts with every field '' except jobType 'Full-time', one of the five types, no message, not submitting and the dropdown closed |
| JobCreate.CreatePage.HandleChange | client/src/components/JobCreate.jsx:41-47 | only the named field changes |
| JobCreate.CreatePage.ToggleDropdown | client/src/components/JobCreate.jsx:171 | the dropdown flips between open and closed, nothing else changes |
| JobCreate.CreatePage.SelectJobType | client/src/components/JobCreate.jsx:194-197 | the type becomes the chosen entry, one of the five, and the dropdown closes |
| JobCreate.CreatePage.HandleSubmit | client/src/components/JobCreate.jsx:49-71 | no token: nothing is sent and the red login prompt shows; a failure leaves the server's message or "Failed to create job"; every path ends not submitting |

## Left out

- The network, the database driver and the browser are parameters, not models. This covers HTTP requests, `save`/`find` as I/O, `localStorage`, `navigate`, `setTimeout`, toasts and `window.confirm`.
- The authentication middleware is not part of this model. Handlers that require it take the caller's id as a parameter, and unauthenticated requests are not modelled.
- Handler `catch` branches are not modelled. These are the 500 answers "Failed to fetch jobs", "Failed to get Job", "Failed to get MY Jobs" and "Failed to Delete", which answer database failures.
- The PUT handler's catch branch "Failed to update" is modelled only for a body the update validators refuse.
- Store-level casting of request values is not modelled: a string salary turned into a number, or an ill-typed path refused with a cast error. Request bodies are `Job` values whose paths already have the schema's types.
- `populate("createdBy", "name")` on all-jobs is not modelled, nor the `timestamps`, `postedDate: Date.now` and the text index of the schema.
- JobApi.JobStore.Update: the final `ObjectId.isValid(updateJob)` test is the parameter `resultIdCheck`. The model does not decide how that function treats a document.
- JobApi.JobStore.Delete: `findOneAndDelete` receives the bare id string as its filter. The model deletes by id, the evident intent, and does not model how the driver reads such a filter.
- JobSchema.IsValidId accepts only the 24-hex-digit form. The 12-character form that `ObjectId.isValid` also accepts is not modelled.
- JobSchema.ValidationErrors lists errors in the schema's path order. Whether the store reports them in that order is not modelled.
- The model treats an explicit `null` in a request body the same as a missing path. The two are not distinguished.
- `toLowerCase` is modelled on ASCII letters only; Unicode case mapping is not modelled.
- JobList.JobTypeColor and MyJobs.JobTypeGradient do not model lookups of inherited object property names such as "constructor". Stored job types are one of the five names anyway.
- Salaries are integers. The display helpers `getSalaryRange`, `getProgressColor`, the progress-bar width and `toLocaleString` use floating point and are not modelled.
- MyJobs.MyJobsPage.FetchMyJobs: a 2xx answer whose body is not a list is not modelled. The page would store the non-list and its filter would fail; the model keeps the list. Against this server that case does not arise: the request is answered 400 and the list stays empty (`MyJobs.OpenPage`). The page's filtering, delete and count contracts describe what it does with a list it holds, which this server never supplies.
- JobEditForm.SalaryField: after a load the page holds the salary as the number itself in a number input. The model holds it as its decimal text, and `Forms.NumberRoundTrip` shows the two read back alike.
- The edit page's character counts are modelled as kept in step with the form after each change. The moment between a change and the effect that recounts is not modelled.
- Rendering, animations, icons and the static pages are not modelled.
