# Forms: a Dafny model of the form builder and its API

Forms is a form-building service: an owner writes forms, with questions in
fourteen kinds, on a React editor page. The owner publishes a form, and
respondents fill it in on a public page. The owner then reads, exports and
deletes the responses. An Express server backed by a Supabase database
stores forms, questions, options, responses, answers, media and branding.

This project models the core of both halves as pure functions.

- **Database.** The database is a value `Store.Db`: one sequence of rows per table.
- **Handlers.** Every HTTP handler maps a database and a request to a reply and the
  database after the request (`Store.Handled`).
- **Page handlers.** Every page handler maps page state to page state, or to the
  requests it sends.
- **Outside inputs.** Fresh ids, clock readings, public URLs, time formatting and the
  browser origin are parameters.

The proofs cover the following:

- **Handler contracts.** Each handler has its status codes and its ownership checks,
  and states what it changes in the database and what it leaves alone.
- **Round trips across the two halves:**
  - a public form is fetched, filled, encoded and submitted, and the owner reads
    the response back;
  - a page's question is saved and comes back with the same kind;
  - a CSV export is parsed back to the table.
- **Invariants.** At most one branding row per form. Each handler of the builder
  keeps its active question pointing at an existing question. A click on a card's
  Delete button breaks this, because the card's own click handler also runs (see
  Findings).
- **Four defects in the code**, each modelled as written and corrected (see Findings).

Modules follow the source files:

| module | file |
|---|---|
| `Store`, `FormController`, `ResponseController`, `MediaController`, `BrandingController`, `UploadMiddleware` | `backend/src/controllers/*.js`, `backend/src/middleware/uploadMiddleware.js` |
| `FormTypes`, `QuestionTypes` | `frontend/src/types/form.ts`, `frontend/src/lib/questionTypes.tsx` |
| `RatingInput`, `FileUploadInput` | the two question inputs under `frontend/src/components/ui/questions/` |
| `PublicForm` | `frontend/src/features/forms/PublicForm.tsx` |
| `Editor`, `FormEditor`, `FormBuilder` | `frontend/src/features/forms/Form.tsx`, `forms.tsx`, `components/QuestionOptions.tsx` |
| `ResponsesList`, `ResponseDetail` | `frontend/src/features/responses/*.tsx` |
| `Dashboard` | `frontend/src/features/dashboard/Dashboard.tsx` |
| `Submission` | the public page and the submit endpoint together |
| `Wrappers`, `Text`, `Seqs` | generic helpers: options, JavaScript string functions, filters and sorting |

Behaviours of the code worth knowing:

- `getFormById` answers a missing form with 500, not 404 (see Findings).
- `submitResponse` stores only the answer text and the selected options. The
  file columns the public page sends are dropped.
- A signature is sent as the second comma-separated field of its data URL, not
  as the whole URL.
- The edit page re-adds every question on each save. It never updates or
  deletes a stored question.
- `getFormById` serves private forms to anyone. Only the public page hides them.
- The upload routes run the middleware's type test as written. A file whose MIME
  type contains none of the listed words is refused with 500 whatever its
  extension (see Findings). The corrected test is modelled beside it, on routes
  of its own.

## Model

| member | source | states |
|---|---|---|
| FormTypes.QuestionTypesAreFourteen | frontend/src/types/form.ts:13-27 | there are exactly fourteen question kinds, each listed once |
| FormTypes.TagRoundTrip | frontend/src/types/form.ts:13-27 | the wire spelling of a kind parses back to the kind, and a string parses to a kind only if it is that kind's spelling |
| FormTypes.Ordinal | frontend/src/types/form.ts:13-27 | each kind's position in the declared order, which indexes the list of kinds back to that kind |
| QuestionTypes.GetQuestionTypeLabel | frontend/src/lib/questionTypes.tsx:100-105 | a known wire string gets its registry label; an unknown one is shown as itself |
| QuestionTypes.GetQuestionTypeIcon | frontend/src/lib/questionTypes.tsx:93-98 | a known wire string gets its registry icon; an unknown one gets the short-text icon |
| QuestionTypes.LabelsDistinct | frontend/src/lib/questionTypes.tsx:20-91 | labels are non-empty and tell the kinds apart |
| QuestionTypes.RatingsShareIcon | frontend/src/lib/questionTypes.tsx:71-79 | the two rating kinds share the star icon but not the label |
| QuestionTypes.IconsDistinctOutsideRatings | frontend/src/lib/questionTypes.tsx:20-91 | outside the rating pair, different kinds have different icons |
| RatingInput.Offered | frontend/src/components/ui/questions/RatingInput.tsx:22-54 | the buttons are 1..5 or 1..10, strictly increasing, each value once |
| RatingInput.Highlights | frontend/src/components/ui/questions/RatingInput.tsx:40-62 | a button is drawn filled exactly when its value is at most the current value |
| RatingInput.ClicksStayOnScale | frontend/src/components/ui/questions/RatingInput.tsx:30-58 | a click emits a value iff the input is enabled, and that value lies on the scale |
| RatingInput.HighlightCount | frontend/src/components/ui/questions/RatingInput.tsx:15-73 | the number of filled buttons is the value clamped to the scale |
| FileUploadInput.HandleFileChange | frontend/src/components/ui/questions/FileUploadInput.tsx:28-49 | size error first, then type error, each without emitting; otherwise the file is emitted and the error cleared |
| FileUploadInput.PickedFileVerdict | frontend/src/components/ui/questions/FileUploadInput.tsx:28-49 | a picked file's outcome ignores the previous error line; it is handed over iff within the size limit with a listed or empty extension, and otherwise nothing is emitted |
| FileUploadInput.HandleRemove | frontend/src/components/ui/questions/FileUploadInput.tsx:51-54 | removal emits nothing-selected and clears the error |
| FileUploadInput.TrailingDotSkipsTypeCheck | frontend/src/components/ui/questions/FileUploadInput.tsx:41-45 | a name ending in a dot has an empty extension and escapes the type check |
| FileUploadInput.SizeBoundary | frontend/src/components/ui/questions/FileUploadInput.tsx:21-38 | exactly the 5 MiB default passes the size check; one byte more fails |
| PublicForm.LoadForm | frontend/src/features/forms/PublicForm.tsx:51-67 | the page shows a fetched form iff it is public |
| PublicForm.SetAnswer | frontend/src/features/forms/PublicForm.tsx:69-71 | one answer is set; every other entry is unchanged |
| PublicForm.ToggleCheckbox | frontend/src/features/forms/PublicForm.tsx:73-87 | ticking appends the option; unticking removes every copy and adds nothing; other questions are unchanged |
| PublicForm.UncheckKeepsOthers | frontend/src/features/forms/PublicForm.tsx:73-87 | unticking keeps every other ticked option as often as before |
| PublicForm.ToggleKeepsFit | frontend/src/features/forms/PublicForm.tsx:73-87 | the checkbox handler keeps every stored value one that its input can produce |
| PublicForm.EmptyTickListIsAnswered | frontend/src/features/forms/PublicForm.tsx:80-101 | unticking the last option leaves an empty list, which still counts as an answer |
| PublicForm.MissingRequired | frontend/src/features/forms/PublicForm.tsx:94-101 | the missing questions are exactly the required ones with a falsy value |
| PublicForm.SignatureContent | frontend/src/features/forms/PublicForm.tsx:124-136 | the signature payload exists iff the data URL contains a comma |
| PublicForm.EncodeAnswer | frontend/src/features/forms/PublicForm.tsx:103-175 | each answer sets exactly one payload, chosen by the first matching branch of the ladder, with the branch's content |
| PublicForm.EncodeAll | frontend/src/features/forms/PublicForm.tsx:103-175 | one answer per question, in order, each carrying its question's id |
| PublicForm.HandleSubmit | frontend/src/features/forms/PublicForm.tsx:89-187 | nothing without a form; blocked iff a required answer is missing; otherwise it submits the encoded answers |
| PublicForm.SignatureSendsPayload | frontend/src/features/forms/PublicForm.tsx:124-136 | a data URL `header,payload` sends exactly its payload |
| PublicForm.RatingSendsDigits | frontend/src/features/forms/PublicForm.tsx:139-148 | a rating is sent as decimal text that parses back to the rating |
| PublicForm.EmptyFileSentAsText | frontend/src/features/forms/PublicForm.tsx:108-122 | a file question with nothing picked falls through to an empty text answer |
| ResponseDetail.StarRating | frontend/src/features/responses/ResponseDetail.tsx:85-95 | a missing or empty text rates 0; otherwise the text is read as a number |
| ResponseDetail.StarRow | frontend/src/features/responses/ResponseDetail.tsx:88-104 | five stars; star i is filled iff the rating is a number greater than i |
| ResponseDetail.RenderAnswer | frontend/src/features/responses/ResponseDetail.tsx:49-172 | which view is drawn, as an if-and-only-if per view, and what each view shows |
| ResponseDetail.TypeBadge | frontend/src/features/responses/ResponseDetail.tsx:211-213 | the badge is the registry label of the joined question's kind |
| ResponseDetail.StarsFilled | frontend/src/features/responses/ResponseDetail.tsx:85-104 | a stored rating r fills min(r, 5) stars |
| ResponseDetail.NonNumericFillsNoStar | frontend/src/features/responses/ResponseDetail.tsx:86-95 | text that is not a number fills no star |
| ResponseDetail.FileWithoutUrlFallsThrough | frontend/src/features/responses/ResponseDetail.tsx:52-73 | a file or signature answer without a URL is drawn from its other fields |
| Store.Single | backend/src/controllers/formController.js:63-66 | `.single()` yields a row iff exactly one row matches |
| Store.FormById | backend/src/controllers/formController.js:63-66 | a form found by id is a stored form with that id |
| Store.QuestionById | backend/src/controllers/formController.js:261-269 | a question found by id is a stored question with that id |
| Store.StoragePath | backend/src/controllers/mediaController.js:30-31 | the storage path keeps the original file's extension |
| Store.StoragePathParts | backend/src/controllers/mediaController.js:30-31 | with slash-free parts, the path is user / form / stem plus extension |
| FormController.CreateForm | backend/src/controllers/formController.js:5-35 | 400 without a title, with the database unchanged; otherwise 201 and one private form owned by the caller, appended |
| FormController.CreatedFormIsOwnedAndPrivate | backend/src/controllers/formController.js:14-27 | a created form is found by its id, owned by its creator, and private |
| FormController.GetUserForms | backend/src/controllers/formController.js:38-55 | exactly the caller's forms, newest first: a sorted permutation of the caller's rows |
| FormController.OptionsOf | backend/src/controllers/formController.js:86-90 | a question's options, a permutation of its rows, ascending by order index |
| FormController.QuestionsOf | backend/src/controllers/formController.js:75-79 | a form's questions, a permutation of its rows, ascending by order index |
| FormController.AssembleForm | backend/src/controllers/formController.js:75-99 | the form with one question per stored question row of the form, in `order_index` order, each carrying its row's id, text, type, flag and position, and its options in order |
| FormController.GetFormByIdAsWritten | backend/src/controllers/formController.js:58-109 | as written: a missing form fails with 500; a found form is served with 200 |
| FormController.GetFormById | backend/src/controllers/formController.js:58-109 | corrected: 404 iff the form is missing; otherwise 200 with the stored form and its stored question rows in order, each with its options |
| FormController.MissingFormGets500 | backend/src/controllers/formController.js:63-72 | as written, no input ever gets the 404 reply |
| FormController.EmptyDatabaseShowsDeadBranch | backend/src/controllers/formController.js:63-72 | any id looked up in an empty database gets 500 |
| FormController.CorrectionOnlyAffectsMissingForms | backend/src/controllers/formController.js:63-107 | for a form that exists, the correction and the code agree |
| FormController.PrivateFormsAreServed | backend/src/controllers/formController.js:58-99 | a private form is served to anyone: the handler checks neither owner nor visibility |
| FormController.ApplyFormUpdate | backend/src/controllers/formController.js:129-134 | a field present in the body replaces the stored value; an absent field is kept; id, owner and creation time are kept |
| FormController.UpdateForm | backend/src/controllers/formController.js:112-146 | 403 with nothing changed unless the caller owns the form; otherwise only that form's row changes |
| FormController.RemoveForm | backend/src/controllers/formController.js:165 | the handler deletes the form row; the schema's assumed cascade (see Left out) removes its questions, their options, its responses, their answers, its media and its branding; in each of the seven tables every row unrelated to the form stays |
| FormController.DeleteForm | backend/src/controllers/formController.js:149-174 | 403 with nothing changed unless the caller owns the form; otherwise the form row is deleted, its dependants go by the schema's assumed cascade, and the form is no longer found |
| FormController.MaxOrder | backend/src/controllers/formController.js:201-211 | the largest order index, attained by some row |
| FormController.NextOrder | backend/src/controllers/formController.js:201-211 | 0 for a form without questions; otherwise one more than the form's largest index, so above every index |
| FormController.NumberOptions | backend/src/controllers/formController.js:229-239 | option i keeps its text verbatim and gets order index i |
| FormController.AddQuestion | backend/src/controllers/formController.js:177-251 | 400 without text or type, then 403 without ownership, each with nothing changed; otherwise 201, the row appended and its options numbered |
| FormController.AddedQuestionListedLast | backend/src/controllers/formController.js:201-243 | reading the form back lists the new question after every question it had |
| FormController.ApplyQuestionUpdate | backend/src/controllers/formController.js:271-276 | present fields replace the stored ones; id, form and order are kept |
| FormController.UpdateQuestion | backend/src/controllers/formController.js:254-288 | 403 with nothing changed unless the caller owns the question's form; otherwise only that question's row changes |
| FormController.DeleteQuestion | backend/src/controllers/formController.js:291-319 | 403 with nothing changed unless the caller owns the question's form; otherwise the question row is deleted and its options go by the schema's assumed cascade; every other question and option stays, nothing is added, and the other tables, answers included, are untouched |
| ResponseController.StoreAnswer | backend/src/controllers/responseController.js:30-48 | the stored row keeps the question id and options, keeps the text only when it is non-empty, and drops the file columns |
| ResponseController.StoreAnswers | backend/src/controllers/responseController.js:30-48 | one row per answer, in order |
| ResponseController.SubmitResponse | backend/src/controllers/responseController.js:5-60 | 400 without answers, 404 without the form, 403 for a private form, each with nothing changed; otherwise 201 and the response and its answers appended |
| ResponseController.JoinAnswer | backend/src/controllers/responseController.js:89-102 | a read-back answer carries its stored fields and its joined question, and no file URL |
| ResponseController.AnswersOf | backend/src/controllers/responseController.js:89-107 | one answer per stored answer row of the response, in storage order, each the row's fields joined with its question |
| ResponseController.GetFormResponses | backend/src/controllers/responseController.js:63-119 | 403 unless the caller owns the form; otherwise a reordering of exactly the form's stored response rows, newest first, each with its answers, and their count |
| ResponseController.ResponseById | backend/src/controllers/responseController.js:128-144 | a response found by id is stored and belongs to an existing form |
| ResponseController.GetResponseById | backend/src/controllers/responseController.js:122-174 | 404 for a missing response, 403 for a non-owner, otherwise 200 with the whole stored row (id, form, submission time) and its answers |
| ResponseController.DeleteResponse | backend/src/controllers/responseController.js:177-212 | 403 with nothing changed unless the caller owns the response's form; otherwise the response row is deleted and its answers go by the schema's assumed cascade; every other response and answer stays and the other tables are untouched |
| ResponseController.SubmittedResponseReadsBack | backend/src/controllers/responseController.js:5-174 | after a submission, the owner reads back one answer per submitted answer, in order |
| ResponseController.SubmissionCountsOnce | backend/src/controllers/responseController.js:5-119 | a submission raises the owner's response count by exactly one |
| ResponseController.DeletedResponseIsGone | backend/src/controllers/responseController.js:122-212 | after deletion, reading the response gives 404 |
| UploadMiddleware.CheckFileAsWritten | backend/src/middleware/uploadMiddleware.js:7-36 | as written: accepted iff one of the listed words occurs in the MIME type and the size is within 10 MiB |
| UploadMiddleware.CheckFile | backend/src/middleware/uploadMiddleware.js:7-36 | corrected: accepted iff the MIME type or the extension is listed and the size is within 10 MiB |
| UploadMiddleware.CheckFiles | backend/src/middleware/uploadMiddleware.js:40 | a batch passes iff it has at most five files and every file passes the type test as written and the size limit |
| UploadMiddleware.PlainTextBatchRefused | backend/src/middleware/uploadMiddleware.js:9-40 | a batch holding `notes.txt` sent as `text/plain` is refused for its type |
| UploadMiddleware.OctetStreamLogoRejectedAsWritten | backend/src/middleware/uploadMiddleware.js:9-16 | `logo.png` sent as `application/octet-stream` is refused as written and accepted when corrected |
| UploadMiddleware.CorrectionOnlyWidens | backend/src/middleware/uploadMiddleware.js:9-16 | whatever the code accepts the correction accepts too, with the same size verdict |
| UploadMiddleware.ListedExtensionAccepted | backend/src/middleware/uploadMiddleware.js:9-16 | a listed document extension within the size limit is accepted, whatever its MIME type |
| UploadMiddleware.TextFileRejectedAsWritten | backend/src/middleware/uploadMiddleware.js:11-16 | `notes.txt` sent as `text/plain` is refused as written and accepted when corrected |
| UploadMiddleware.AudioPassesAsVideo | backend/src/middleware/uploadMiddleware.js:10-16 | an `audio/ogg` file passes as written because of the video word `ogg` |
| UploadMiddleware.SizeLimitInclusive | backend/src/middleware/uploadMiddleware.js:32-34 | exactly 10 MiB passes; one byte more is refused for size |
| MediaController.KindOf | backend/src/controllers/mediaController.js:49 | a MIME type starting with `video/` gives a video; any other gives an image, never a logo |
| MediaController.UploadFormMedia | backend/src/controllers/mediaController.js:8-77 | 403 for a non-owner, then 400 without a file, each with nothing changed; otherwise 201 and one media row appended |
| MediaController.UploadMediaRequest | backend/src/routes/mediaRoutes.js:17 | a file the middleware's written type test or size limit refuses gets 500 before the handler runs; otherwise the handler decides |
| MediaController.UploadMediaRequestCorrected | backend/src/routes/mediaRoutes.js:17 | corrected: the same route behind the corrected type test |
| MediaController.PlainTextUploadRefused | backend/server.js:54-60 | the owner's `notes.txt` sent as `text/plain` gets 500 with nothing stored; behind the corrected test it is stored with 201 |
| MediaController.RefusedFileBeatsOwnership | backend/server.js:54-60 | an oversized file gets 500 even from a non-owner, whom the handler alone would answer with 403 |
| MediaController.GetFormMedia | backend/src/controllers/mediaController.js:80-97 | a reordering of exactly the form's media rows, each as often as stored, oldest first |
| MediaController.UploadedMediaListed | backend/src/controllers/mediaController.js:51-97 | uploaded media appears in its form's listing |
| MediaController.MediaById | backend/src/controllers/mediaController.js:106-114 | media found by id is stored and belongs to an existing form |
| MediaController.DeleteFormMedia | backend/src/controllers/mediaController.js:100-140 | 404 when missing, 403 for a non-owner, each with nothing changed; otherwise the row goes |
| MediaController.DeletedMediaUnlisted | backend/src/controllers/mediaController.js:100-140 | deleted media appears in no form's listing |
| BrandingController.DefaultsShape | backend/src/controllers/brandingController.js:12-28 | the defaults set eleven fields, with no logo or custom CSS, and a medium width |
| BrandingController.GetFormBranding | backend/src/controllers/brandingController.js:1-37 | 500 on a failed lookup; otherwise the single stored record, or the defaults when there is not exactly one |
| BrandingController.Merge | backend/src/controllers/brandingController.js:56-74 | a present patch field replaces the current one; an absent field keeps it |
| BrandingController.MergeLaws | backend/src/controllers/brandingController.js:56-81 | the empty patch changes nothing; a patch is idempotent; a full patch replaces everything |
| BrandingController.Upsert | backend/src/controllers/brandingController.js:76-81 | the form's row is updated in place, or a new row is appended; other forms' rows are unchanged |
| BrandingController.UpsertKeepsOnePerForm | backend/src/controllers/brandingController.js:76-81 | an upsert keeps at most one row per form, and that row is the upserted record |
| BrandingController.UpdateFormBranding | backend/src/controllers/brandingController.js:40-93 | 403 with nothing changed unless the caller owns the form; otherwise 200 and the upserted record |
| BrandingController.UpdatedBrandingReadsBack | backend/src/controllers/brandingController.js:1-93 | after an update, reading serves the stored record, whose set fields are the body's |
| BrandingController.LogoPatch | backend/src/controllers/brandingController.js:136-148 | the logo patch sets exactly the two logo fields |
| BrandingController.UploadLogo | backend/src/controllers/brandingController.js:96-161 | 403 for a non-owner, 400 without a file, each with nothing changed; otherwise 200, the logo URL and the upserted record |
| BrandingController.LogoKeepsTheme | backend/src/controllers/brandingController.js:136-148 | a logo upload keeps every other style field of the stored record |
| BrandingController.LogoPathNamesLogo | backend/src/controllers/brandingController.js:117-118 | the logo path ends with `logo_` plus the stem plus the original extension, under the user and form folders |
| BrandingController.UploadLogoRequest | backend/src/routes/brandingRoutes.js:19 | a file the middleware's written type test or size limit refuses gets 500 before the handler runs; otherwise the handler decides |
| BrandingController.UploadLogoRequestCorrected | backend/src/routes/brandingRoutes.js:19 | corrected: the same route behind the corrected type test |
| BrandingController.OctetStreamLogoRefused | backend/server.js:54-60 | the owner's `logo.png` sent as `application/octet-stream` gets 500 with the branding untouched; behind the corrected test it is stored with 200 |
| Editor.Ids | frontend/src/features/forms/Form.tsx:176-198 | the ids of the questions, position by position |
| Editor.OptionTexts | frontend/src/features/forms/Form.tsx:240-243 | the texts of the options, position by position |
| Editor.AppendQuestion | frontend/src/features/forms/Form.tsx:158-168 | the question goes last and becomes active |
| Editor.ReplaceById | frontend/src/features/forms/Form.tsx:170-174 | each question with the edited id is replaced; the rest are kept in place |
| Editor.ReplaceLaws | frontend/src/features/forms/Form.tsx:170-174 | replacing keeps the ids, is idempotent, and putting back the same question changes nothing |
| Editor.FindIndex | frontend/src/features/forms/Form.tsx:187 | the first position with the id; none iff the id is absent |
| Editor.RenewOptionIds | frontend/src/features/forms/Form.tsx:176-186 | the options get fresh ids and keep their texts |
| Editor.CopyQuestion | frontend/src/features/forms/Form.tsx:176-186 | the copy differs only in its question and option ids |
| Editor.DuplicateAfter | frontend/src/features/forms/Form.tsx:176-192 | the copy is inserted right after the first matching question; an unknown id changes nothing |
| Editor.Duplicate | frontend/src/features/forms/Form.tsx:176-192 | as DuplicateAfter, and the copy becomes active |
| Editor.DuplicateButtonClick | frontend/src/features/forms/Form.tsx:378-388 | a click on Duplicate also runs the card's click handler: the copy is inserted, but the original question ends up active |
| Editor.DeleteById | frontend/src/features/forms/Form.tsx:194-198 | no question with the id remains; every other question is kept |
| Editor.DuplicateThenDeleteRestores | frontend/src/features/forms/Form.tsx:176-198 | deleting a fresh copy gives back the original list |
| Editor.RenameOption | frontend/src/features/forms/components/QuestionOptions.tsx:15-20 | only the texts of options with the given id change |
| Editor.AddOption | frontend/src/features/forms/components/QuestionOptions.tsx:22-28 | only the options change: the old ones are kept in order and one is appended, captioned with the new option count |
| Editor.AddedLabelCountsOptions | frontend/src/features/forms/components/QuestionOptions.tsx:22-28 | the new label reads "Option n", where n is the new option count |
| Editor.RemoveOption | frontend/src/features/forms/Form.tsx:459-464 | unguarded removal: options with the id go; the rest are kept |
| Editor.RemoveOptionGuarded | frontend/src/features/forms/components/QuestionOptions.tsx:30-36 | a question with one option or none is left alone; otherwise the option goes |
| Editor.GuardedRemovalKeepsOne | frontend/src/features/forms/forms.tsx:90-96 | the guarded removal never leaves a question without options |
| Editor.UnguardedRemovalCanEmpty | frontend/src/features/forms/Form.tsx:459-464 | the edit page's removal can delete the last option |
| FormEditor.MapApiTypeToLocal | frontend/src/features/forms/Form.tsx:137-154 | a kind the page knows maps to itself; anything else maps to short text |
| FormEditor.KindMappingRoundTrip | frontend/src/features/forms/Form.tsx:137-156 | page kind to wire and back is the identity; a wire kind survives the trip iff the page knows it |
| FormEditor.LoadQuestion | frontend/src/features/forms/Form.tsx:116-126 | a stored question becomes a page question with the same id, text, flag, mapped kind and option texts |
| FormEditor.LoadForm | frontend/src/features/forms/Form.tsx:110-135 | title and visibility are copied; the description defaults when empty; the first question is active |
| FormEditor.CreatePage | frontend/src/features/forms/Form.tsx:80-107 | create mode opens untitled and private, with the active sample question and its three options |
| FormEditor.UntouchedCreateSave | frontend/src/features/forms/Form.tsx:89-245 | saving the untouched create page sends create, update and one add carrying the sample's options |
| FormEditor.NewQuestion | frontend/src/features/forms/Form.tsx:158-168 | an empty, optional short-text question with one option "Option 1" |
| FormEditor.AddQuestionHandler | frontend/src/features/forms/Form.tsx:158-168 | the new question goes last and becomes active |
| FormEditor.HandleDeleteQuestion | frontend/src/features/forms/Form.tsx:194-198 | the question goes and the active id is unchanged |
| FormEditor.DeletingActiveLeavesItDangling | frontend/src/features/forms/Form.tsx:194-198 | deleting the active question leaves the page pointing at a missing question |
| FormEditor.ChangeType | frontend/src/features/forms/Form.tsx:526-538 | a choice kind keeps the options; any other kind empties them |
| FormEditor.TypeChangeLosesOptions | frontend/src/features/forms/Form.tsx:526-538 | switching away from a choice kind and back loses the options |
| FormEditor.QuestionRequest | frontend/src/features/forms/Form.tsx:234-243 | the request carries text, wire kind and flag, and the option texts iff the kind is a choice with options |
| FormEditor.AddCalls | frontend/src/features/forms/Form.tsx:230-245 | one add request per question with non-blank text, in page order |
| FormEditor.SavePlan | frontend/src/features/forms/Form.tsx:200-257 | nothing iff the title is blank; create then update then adds for a new form; update then adds for an edited one |
| FormEditor.SettingsPlan | frontend/src/features/forms/Form.tsx:260-280 | nothing iff the title is blank; one update for an edited form; no request for a new one |
| FormEditor.SpaceOnlyTitleRefused | frontend/src/features/forms/Form.tsx:200-280 | a title of one ideographic space is blank for `trim()`, so neither save sends anything |
| FormEditor.SettingsArePrefixOfSave | frontend/src/features/forms/Form.tsx:200-280 | on an edited form, the settings request is a save's first request, followed by the adds |
| FormEditor.SavedQuestionAccepted | frontend/src/features/forms/Form.tsx:230-245 | every saved question passes the server's validation; it is stored iff the caller owns the form, and loads back with the same kind and option texts |
| FormEditor.EditSaveReAddsLoadedQuestions | frontend/src/features/forms/Form.tsx:110-245 | saving a loaded form unchanged sends one add per stored question again |
| FormBuilder.Placeholder | frontend/src/features/forms/forms.tsx:45-56 | `getPlaceholderForType`, which the page never calls: every kind has a non-empty placeholder |
| FormBuilder.KindsDistinguishable | frontend/src/features/forms/forms.tsx:45-56 | different kinds have different names and placeholders |
| FormBuilder.InitialPage | frontend/src/features/forms/forms.tsx:246-266 | one required multiple-choice question with the three sample options, active when its id is set |
| FormBuilder.AddQuestion | frontend/src/features/forms/forms.tsx:268-278 | a short-answer question with "Option 1" goes last and becomes active |
| FormBuilder.UpdateQuestion | frontend/src/features/forms/forms.tsx:280-284 | the question is replaced by id; the active question stays |
| FormBuilder.DeleteQuestion | frontend/src/features/forms/forms.tsx:286-289 | the question goes, and the active question is cleared exactly when it was the one deleted |
| FormBuilder.DeleteButtonClick | frontend/src/features/forms/forms.tsx:286-345 | as clicked, the card's handler re-activates the deleted question: the active id always names a question that no longer exists |
| FormBuilder.DuplicateQuestion | frontend/src/features/forms/forms.tsx:291-307 | the copy is added and becomes active, and deleting it restores the list; an unknown id changes nothing |
| FormBuilder.ChangeKind | frontend/src/features/forms/forms.tsx:168-172 | only the kind changes; options are kept |
| FormBuilder.KindChangeUndoable | frontend/src/features/forms/forms.tsx:168-172 | changing the kind away and back restores the question |
| FormBuilder.SetRequired | frontend/src/features/forms/forms.tsx:231-235 | only the required flag changes |
| FormBuilder.StepKeepsActiveValid | frontend/src/features/forms/forms.tsx:264-307 | each handler keeps the active id pointing at an existing question |
| FormBuilder.ActiveStaysValid | frontend/src/features/forms/forms.tsx:264-307 | any sequence of handlers, each run on its own, keeps the active id pointing at an existing question |
| ResponsesList.FirstIndex | frontend/src/features/responses/ResponsesList.tsx:62 | the first answer to the question; none iff no answer refers to it |
| ResponsesList.ShownText | frontend/src/features/responses/ResponsesList.tsx:63 | the fallback is shown for a missing, null or empty answer; otherwise the answer's own text |
| ResponsesList.CellsAgree | frontend/src/features/responses/ResponsesList.tsx:63-145 | the table and the export show the same text, except the table's dash for an empty export cell |
| ResponsesList.RemoveResponse | frontend/src/features/responses/ResponsesList.tsx:45-49 | the deleted response leaves the list; every other response stays |
| ResponsesList.Header | frontend/src/features/responses/ResponsesList.tsx:54-57 | "Submitted At" followed by every question's text, in order |
| ResponsesList.Row | frontend/src/features/responses/ResponsesList.tsx:59-66 | the formatted time, then one cell per question of the form, in order |
| ResponsesList.Table | frontend/src/features/responses/ResponsesList.tsx:54-66 | the header and one row per response, all of the same width |
| ResponsesList.ExportAsWritten | frontend/src/features/responses/ResponsesList.tsx:51-78 | as written: nothing without a form or responses; otherwise the table quoted without escaping |
| ResponsesList.QuoteInAnswerCollides | frontend/src/features/responses/ResponsesList.tsx:68-71 | as written, two different tables export to the same text |
| ResponsesList.EscapeLength | frontend/src/features/responses/ResponsesList.tsx:68-71 | corrected quoting: escaping adds exactly one character per double quote of the cell |
| ResponsesList.Export | frontend/src/features/responses/ResponsesList.tsx:51-78 | corrected: nothing without a form or responses; otherwise text that parses back to exactly the table |
| ResponsesList.EncodeRoundTrip | frontend/src/features/responses/ResponsesList.tsx:68-71 | every non-empty table parses back from its escaped encoding |
| ResponsesList.EscapeChangesOnlyQuotes | frontend/src/features/responses/ResponsesList.tsx:68-71 | for cells without quotes, the correction and the code produce the same text |
| Dashboard.LoadForms | frontend/src/features/dashboard/Dashboard.tsx:67-78 | a null list counts as no forms |
| Dashboard.Search | frontend/src/features/dashboard/Dashboard.tsx:81-90 | a blank query keeps every form; otherwise exactly the forms whose title or description contains the query, ignoring case |
| Dashboard.SpaceOnlyQueryKeepsAll | frontend/src/features/dashboard/Dashboard.tsx:83 | a query of one ideographic space is blank for `trim()` and keeps every form |
| Dashboard.Visible | frontend/src/features/dashboard/Dashboard.tsx:81-97 | a permutation of the search result, sorted newest or oldest first |
| Dashboard.SearchIgnoresQueryCase | frontend/src/features/dashboard/Dashboard.tsx:84-89 | lower-casing the query does not change the result |
| Dashboard.TrailingSpaceHidesForm | frontend/src/features/dashboard/Dashboard.tsx:83-89 | the query is only trimmed for the blank test: "Survey " does not find "Survey" |
| Dashboard.RemoveForm | frontend/src/features/dashboard/Dashboard.tsx:99-108 | the deleted form leaves the list; every other form stays |
| Dashboard.DeletedFormNotShown | frontend/src/features/dashboard/Dashboard.tsx:81-108 | no search or order shows a deleted form |
| Dashboard.PublicLinkNamesForm | frontend/src/features/dashboard/Dashboard.tsx:111-115 | the copied link's last path segment is the form id |
| Submission.PublicSubmissionReadsBack | frontend/src/features/forms/PublicForm.tsx:51-187 | a public form filled in completely is shown, submitted with 201, and read back by the owner with one answer per question |
| Submission.PrivateFormTakesNoAnswers | backend/src/controllers/responseController.js:25-27 | a private form is served but not shown, and a direct submission gets 403 with nothing stored |

## Left out

- Storage and network: blob uploads and removals are not modelled. Public URLs come from a parameter, `urlOf`.
- Database failures, failed inserts and their 500 replies are left out. The one exception is the branding read's failed lookup, which is the `lookupFailed` parameter.
- Clocks and randomness: fresh ids (`uuid`, `crypto.randomUUID`) and timestamps are parameters.
- The server wiring is not modelled: authentication middleware, routing tables, CORS and the session. The authenticated user is a parameter.
- `authController.js` and the sign-in pages are not part of this model.
- Request bodies are modelled as optional fields. A `null` or non-JSON body is not modelled.
- Rows the database returns without `order` come back in insertion order. Ties under `order` keep insertion order; JavaScript's and the database's tie order is not pinned.
- The form title that `getResponseById` joins in is not modelled; only the answers and their questions are.
- Date formatting (`toLocaleString`), the `toFixed` size wording, alerts, confirmations (assumed granted), the clipboard and navigation are left out.
- `Text.Lower` folds ASCII letters only. JavaScript's `toLowerCase` also folds other letters.
- The signature, email, phone and URL inputs are not modelled. The values they produce enter the model as stored page values.
- BrandingController.Merge: its ensures covers only two of the fifteen style fields. `MergeLaws` states the laws over all fields.
- BrandingController.GetFormBranding: `brandingController.js` uses `supabase` and `uuidv4` without importing them, unlike the other controllers. Every branding handler is modelled as if the two imports were present.
- ResponseDetail.StarRating: the stored text is read as a decimal natural number. `Number` also accepts signs, fractions, surrounding spaces and hexadecimal; here those read as no rating and fill no star. The rating input only ever stores the digits of 1 to 5.
- ResponseController.SubmitResponse: the `file_data` sent with file and signature answers is dropped, as the code drops it.
- FormBuilder.DuplicateQuestion: a copy is made only when one fresh option id is supplied per option of the copied question.
- FormBuilder.ActiveStaysValid: the invariant is proved for the handlers as the page defines them. A click on a card's Delete or Duplicate button also runs the card's own click handler; DeleteButtonClick and Editor.DuplicateButtonClick model those two clicks. Clicks inside the card's text fields and switches are not modelled.
- FormController.RemoveForm: the handlers delete only the parent row; the database schema is not part of this model. The model assumes these ON DELETE CASCADE foreign keys: forms to questions, responses, media and branding; questions to options; responses to answers. Answers naming a deleted question are assumed neither to cascade nor to block the delete, so they are kept. Without those cascades the dependent rows would stay behind.
- Dashboard.Visible: `created_at || 0` is modelled as the stored integer. A missing date is not represented.

## Findings

| source | as written | input that shows it | evidently intended | confidence | as-written member | corrected member |
|---|---|---|---|---|---|---|
| backend/src/controllers/formController.js:63-72 | `.single()` reports a missing row as an error, which is thrown and answered with 500, so the 404 branch never runs | any id looked up in an empty database | 404 "Form not found" for a missing form | not executed | FormController.GetFormByIdAsWritten | FormController.GetFormById |
| backend/src/middleware/uploadMiddleware.js:9-16 | the extension patterns are tested against the MIME type, so `text/plain` (no `txt` in it) is refused and `audio/ogg` is accepted | `notes.txt` with MIME type `text/plain` | accept a file whose MIME type or extension is listed | not executed | UploadMiddleware.TextFileRejectedAsWritten | UploadMiddleware.CheckFile |
| frontend/src/features/forms/forms.tsx:286-345 | the Delete button sits inside the card, whose `onClick` makes the card's question active, and the click is not stopped, so the card's update lands after `deleteQuestion` clears the active id | one question `q1`, active, and a click on its Delete button | the deleted question is no longer active, as `deleteQuestion` intends | not executed | FormBuilder.DeleteButtonClick | FormBuilder.DeleteQuestion |
| frontend/src/features/responses/ResponsesList.tsx:68-71 | cells are wrapped in quotes without doubling embedded quotes, so distinct tables export identically | an answer text `a","b` | double embedded quotes as section 2 of RFC 4180 requires, so every table reads back | not executed | ResponsesList.QuoteInAnswerCollides | ResponsesList.Export |
