# Medical intake assistant: a verified model of its core

The application is a Next.js web app. A signed-in user fills a four-step medical intake
form, optionally attaching images. The form is stored and a consultation conversation is
opened for it. The user then chats with a language model that receives a
patient-information block built from the form. This project models the deterministic logic
around the external services, and proves its properties:

- **the chat turn**: mode decision, message inserts in fixed order, the ten-message context
  window, the `updatedAt` bump and the mapping of errors to HTTP statuses;
- **the prompt assembler**: the delimited patient block, the content parts, data-URL decoding
  and the fallback reply;
- **the database retry wrapper**;
- **the form, conversation and upload routes**;
- **the validators and sanitisers**;
- **the client-side state** of the intake form and of the image-upload component.

Module layout, one file each:

| module | contents |
|---|---|
| `Wrappers` | `Option` |
| `Text` | JavaScript string built-ins on ASCII: `trim`, `split`, `join`, `includes`, `toLowerCase`, `replace` with a character class, `slice` |
| `JsNumber` | `parseInt` without a radix, and the decimal rendering of an integer |
| `Validation`, `MedicalUtils` | the two validation libraries |
| `Records` | the table rows |
| `Gemini` | the prompt assembler, with the model as a `Provider` function |
| `Db` | the retry wrapper |
| `Http` | JSON responses and the 503/500 error mapping |
| `Store` | the `Database` class, whose methods are the chat, forms and conversations routes |
| `Upload` | the upload route |
| `ImageList` | image lists shared by both pages |
| `FormWizard` | the intake page's state, as a class |
| `ImageUpload` | the upload component's state, as a class |

External calls are parameters:

- **The signed-in user id** is an `Option<string>`.
- **The authentication provider's profile** is an `AuthProfile`.
- **The language model** is a `Provider` from content parts to `ProviderOk(text)` or `ProviderFailed`.
- **The base64 encoder** is a function from bytes to text.
- **Database failures** are a `Fault` per request: either every storage call of the request
  succeeds, or the call with a given index throws a given error. The route then makes no
  further call.
- **Generated ids and clock values** are arguments (`now`, image ids, `Math.random`).

Forms and conversations are identified by their position in the store's tables. The messages
of conversation `i` are `transcripts[i]`, in insertion order.

## Model

| member | source | states |
|---|---|---|
| Db.CallWithRetry | lib/db.js:17-44 | the loop returns the result, the number of attempts and the waits of the reference run `Retry(outcome)` |
| Db.RetryStopsAt | lib/db.js:23-41 | the run stops at the first attempt that succeeds or throws a non-connection error, or at the last attempt; it waits `Backoff(j)` after each retried attempt before it |
| Db.AttemptsBounded | lib/db.js:20-23 | a run makes at least one and at most three attempts |
| Db.FirstSuccess | lib/db.js:24-25 | a first-attempt success returns its value after one attempt with no wait |
| Db.NonConnectionErrorRethrown | lib/db.js:31-38 | after retried connection errors, a non-connection error at attempt k is rethrown, and k+1 attempts were made |
| Db.ThreeConnectionErrors | lib/db.js:31-42 | three connection errors: the third error is thrown after three attempts, with waits of 1000 and 2000 ms only |
| Db.Backoffs | lib/db.js:33 | the j-th wait is `1000 * (j + 1)` ms |
| Http.DatabaseFailure | app/api/chat/route.js:129-144 | a caught error answers 503 exactly when it is connection-class (`fetch failed` in the message or the connect-timeout code), otherwise 500 |
| Store.TurnOf | app/api/chat/route.js:55-75 | initial assessment iff no message is stored and the message is blank; rejected iff messages exist and the message is blank; ordinary iff the message is not blank |
| Store.UserMessage | app/api/chat/route.js:78-84 | the user message has role `user` and the given content, and its images are `null` iff the list is empty |
| Store.AssistantMessage | app/api/chat/route.js:60-66 | an assistant message has role `assistant`, the reply as content and `null` images |
| Store.RecentHistory | app/api/chat/route.js:89-95 | the context is the last `min(10, n)` stored messages, in stored order, reduced to role, content and images |
| Store.AssistantFollowsUser | app/api/chat/route.js:77-112 | in an ordinary turn, if any assistant message was stored then the user message was stored before it |
| Store.RecordedReplyStored | app/api/chat/route.js:105-127 | a successful turn answers with the content of the assistant message it stored last, and the transcript grew by exactly the turn's writes |
| Store.InitialRecorded | app/api/chat/route.js:55-66 | the initial-assessment branch stores one assistant message with storage call 2, then updates `updatedAt` |
| Store.OrdinaryRecorded | app/api/chat/route.js:77-119 | the ordinary branch stores the user message with call 2 and the assistant message with call 3, then updates `updatedAt` |
| Store.OrdinaryFailedFirst | app/api/chat/route.js:77-84 | a throwing user-message insert stores nothing, leaves `updatedAt` and answers with the mapped error |
| Store.Database.Chat | app/api/chat/route.js:8-145 | 401 without user and 400 without conversation id, both with nothing changed; a throwing selection gives the mapped error; a missing or foreign conversation gives 404 with nothing changed; a blank message after existing messages gives 400 with nothing changed; otherwise the turn is recorded and the other tables are unchanged |
| Store.Database.InitialTurn | app/api/chat/route.js:55-66 | the stored reply is the model's answer to the assessment prompt, recorded as one assistant message |
| Store.Database.OrdinaryTurn | app/api/chat/route.js:68-112 | the user message is stored first, the reply is the model's answer to the message, the form and the images, and it is recorded after the user message |
| Store.Database.StoreAssistantReply | app/api/chat/route.js:105-119 | the assistant insert at the given call and the `updatedAt` update at the next; a throw answers the mapped error and skips what follows |
| Store.OrNull | app/api/forms/route.js:69-77 | `value \|\| null` is present exactly for a truthy value, and then is that value |
| Store.NameSplitRoundTrip | app/api/forms/route.js:54-55 | when both name parts come from the form's name and the last name is not empty, first + " " + last is the name |
| Store.NameWithoutSpace | app/api/forms/route.js:54-55 | a name without a space becomes the first name, with an empty last name |
| Store.StoredAge | app/api/forms/route.js:65 | the stored age is `parseInt(age)` when it is a number inside the 32-bit column range; otherwise the insert fails |
| Store.NewFormOptionalFields | app/api/forms/route.js:62-80 | an optional field is stored iff it is truthy, and then as given; the images are stored as sent |
| Store.EnsureUser | app/api/forms/route.js:42-59 | when the user lookup and insert succeed, the user has a row and every existing row is unchanged |
| Store.FormStoredOutcome | app/api/forms/route.js:42-95 | a stored form is appended at the next id with the caller's id and name; a user row is added only for a new user; any failure answers 500 and adds no form |
| Store.Database.EnsureUserRow | app/api/forms/route.js:42-59 | the user table after the lookup and conditional insert is `EnsureUser` of the old table, and nothing else changes |
| Store.Database.StoreForm | app/api/forms/route.js:42-88 | the tables after the user step and the form insert satisfy `FormStored` |
| Store.Database.SubmitForm | app/api/forms/route.js:8-96 | 401 without user and 400 when a required field is falsy, both with nothing changed; otherwise `FormStored` holds |
| Store.TitleFor | app/api/conversations/route.js:96 | the title is `Health Consultation - ` followed by exactly the form's name |
| Store.Database.CreateConversation | app/api/conversations/route.js:60-124 | 401, 400, the mapped error of the selection, or 404 for a missing or foreign form, each with nothing changed; otherwise one conversation of the caller for the form is appended, with an empty transcript, the derived title and both timestamps `now` |
| Store.OwnedIds | app/api/conversations/route.js:33 | the ids are exactly the caller's conversations, in increasing order |
| Store.InsertByRecencyPermutes | app/api/conversations/route.js:34 | one insertion step adds exactly the inserted id |
| Store.InsertByRecencySorted | app/api/conversations/route.js:34 | inserting into a newest-first list keeps it newest first |
| Store.ByRecencyCorrect | app/api/conversations/route.js:34 | the sort by `updatedAt` descending is a permutation and its result is newest first |
| Store.ListedIdsExact | app/api/conversations/route.js:33 | a conversation is listed iff it belongs to the caller |
| Store.ListedIdsDistinct | app/api/conversations/route.js:31-34 | no conversation is listed twice |
| Store.ListedNewestFirst | app/api/conversations/route.js:34 | the listed rows are ordered by `updatedAt`, most recent first |
| Store.ConversationList | app/api/conversations/route.js:17-30 | one row per listed id, with the selected conversation and form columns |
| Store.Database.ListConversations | app/api/conversations/route.js:9-57 | 401 without user, the mapped error when the selection throws, otherwise the caller's listing |
| Upload.UploadRecords | app/api/upload/route.js:24-41 | every record has an `image/` type, and there are no more records than entries |
| Upload.UploadRecordsConcat | app/api/upload/route.js:26-41 | records are made entry by entry, in input order |
| Upload.AllImagesKept | app/api/upload/route.js:26-39 | when every entry is an image file, record i is the record of entry i: name, size, type and data URL |
| Upload.OthersDropped | app/api/upload/route.js:26-49 | entries that are not image files leave no record |
| Upload.Upload | app/api/upload/route.js:4-58 | 401 without user, 400 for no files, otherwise success with the image records in order |
| Upload.DataUrlRoundTrip | app/api/upload/route.js:32 | for a type without `;`, `:` or `,` and a payload without `,`, decoding the data URL gives back exactly that type and payload |
| Upload.UploadedImageReachesProvider | app/api/upload/route.js:27-39 | an uploaded image's data URL passes the `data:image/` test and becomes one inline part with the file's type and the encoder's output |
| Gemini.CollectDietInfo | lib/gemini.js:59-62 | the pushed lines are the given meals in breakfast, lunch, dinner order |
| Gemini.OpenBlock | lib/gemini.js:31-36 | the opening delimiter followed by the five basic lines |
| Gemini.AppendField | lib/gemini.js:38-56 | one conditional append adds the item iff the field is truthy |
| Gemini.AppendDietInfo | lib/gemini.js:59-66 | the diet step appends the diet section, present iff some meal is given |
| Gemini.BuildContextMessage | lib/gemini.js:27-69 | the `+=` construction yields the reference context block, and the empty string without a form |
| Gemini.FullMessageWithForm | lib/gemini.js:30-75 | with a form, the text is the header, the five basic lines, the detail items, the footer, then the message text |
| Gemini.BasicText | lib/gemini.js:32-36 | the Name, Age (with ` years`), Gender, Weight and Height lines, in that order |
| Gemini.OptionalItemIff | lib/gemini.js:38-56 | Blood Type, Current Health Issues, Chronic Conditions, Current Medications and Known Allergies appear iff the field is truthy, with its value |
| Gemini.DietItemIff | lib/gemini.js:58-66 | the Diet Information item appears iff some meal is given, and holds the given meal lines joined by line breaks |
| Gemini.DietLinesRecoverable | lib/gemini.js:59-65 | splitting the diet text at line breaks gives back the meal lines when none holds a line break |
| Gemini.FullMessageWithoutForm | lib/gemini.js:75 | without a form the text is the message, or the fixed instruction when the message is empty |
| Gemini.ImageParts | lib/gemini.js:79-94 | every image part is an inline-data part, and there are no more parts than images |
| Gemini.ImagePartsConcat | lib/gemini.js:79-94 | image parts are made image by image, in input order |
| Gemini.MimeTypeOfImageUrl | lib/gemini.js:82-84 | every image passing the `data:image/` test gets a MIME type, and that type starts with `image/` |
| Gemini.BuildParts | lib/gemini.js:72-94 | the parts are the text part followed by the parts of the data-URL images |
| Gemini.GenerateMedicalResponse | lib/gemini.js:24-119 | the reply is the model's answer to the parts built from message, form and images, whatever the history; a model failure gives the fixed fallback reply |
| Gemini.GenerateInitialAssessment | lib/gemini.js:126-138 | the reply is the model's answer to the fixed assessment request with the form and no images |
| Gemini.InitialAssessmentPrompt | lib/gemini.js:126-138 | the assessment prompt is one text part: the context block followed by the fixed request |
| Validation.SanitizeInput | lib/validation.js:11-20 | non-string input gives the empty string; the output has at most 10000 characters, no `<` or `>`, and only characters of the input |
| Validation.SanitizeInputKeepsCleanText | lib/validation.js:16-19 | trimmed, short text without angle brackets is returned unchanged |
| Validation.SanitizeMedicalText | lib/validation.js:27-36 | non-string input gives the empty string; the output has at most 5000 characters and none of the deleted control characters, and keeps every other character of the truncated text |
| Validation.MedicalTextKeepsLineStructure | lib/validation.js:35 | tabs, line feeds and carriage returns of the truncated text all survive |
| Validation.ValidateEmailIff | lib/validation.js:43-46 | the check accepts exactly the strings the e-mail pattern matches |
| Validation.ValidateEmailSound | lib/validation.js:44 | an accepted string matches the pattern |
| Validation.ValidateEmailComplete | lib/validation.js:44 | a matching string is accepted |
| Validation.ValidateAgeOfRendered | lib/validation.js:53-56 | on an integer's rendering, optionally followed by a unit, the age check holds iff the integer is in [0, 150] |
| JsNumber.ParseIntOfIntToString | lib/validation.js:54 | `parseInt` reads back the decimal rendering of any integer, also with non-numeric text after it |
| Validation.ValidateImageFile | lib/validation.js:84-105 | no file, then an unsupported type, then too large, then a bad name: the first failing check decides; a size equal to the limit is accepted |
| Validation.ValidateImageFileMonotone | lib/validation.js:86-96 | raising the size limit never rejects an accepted file |
| Validation.EscapeHtml | lib/validation.js:112-121 | the output has no `<`, `>`, `"` or `'`, and text without special characters is unchanged |
| Validation.EscapeHtmlRoundTrip | lib/validation.js:112-121 | decoding the entities of the escaped text gives back the original |
| Validation.ValidateUUID | lib/validation.js:128-131 | accepted iff 36 characters, hyphens at 8, 13, 18 and 23, hexadecimal digits of either case elsewhere |
| Validation.ValidateUUIDGroups | lib/validation.js:129 | accepted iff the text is five hexadecimal groups of 8, 4, 4, 4 and 12 digits joined by hyphens |
| Validation.ValidateUserID | lib/validation.js:138-141 | accepted iff 1 to 255 characters, each a letter, digit, `_` or `-` |
| Validation.ValidIdentifiersNeedNoSanitising | lib/validation.js:138-141 | identifiers that pass the user-id or UUID check are unchanged by `sanitizeInput` and `escapeHtml` |
| MedicalUtils.ValidatePersonalInfo | lib/medical-utils.js:5-37 | each field's error is present iff that field fails, with its message (required versus out of range for age); `isValid` iff there is no error |
| MedicalUtils.ValidateMedicalHistory | lib/medical-utils.js:39-49 | always valid, with no errors |
| MedicalUtils.GetBMICategory | lib/medical-utils.js:97-104 | a falsy BMI gives null; otherwise the category matches the thresholds 18.5, 25 and 30 |
| MedicalUtils.BMICategoryMonotone | lib/medical-utils.js:100-103 | a larger BMI never falls into a lower category |
| MedicalUtils.ValidateMedicalImage | lib/medical-utils.js:123-142 | the type error is present iff the type is not allowed, and the size error iff the size exceeds 10 MB; with both, type comes first; `isValid` iff there is no error |
| MedicalUtils.ImageFileAcceptedIsMedicalImage | lib/medical-utils.js:127-135 | every file `validateImageFile` accepts with its default limit passes this check |
| MedicalUtils.JpgAcceptedOnlyHere | lib/medical-utils.js:127 | `image/jpg` passes this check but is refused by `validateImageFile` |
| MedicalUtils.ParseMedicationString | lib/medical-utils.js:147-161 | blank input gives no medication; every medication is a non-empty trimmed word with name equal to raw, free of separators |
| MedicalUtils.MedicationsOfTrimmed | lib/medical-utils.js:151-158 | every kept piece is a trimmed non-empty word whose name is its raw text |
| MedicalUtils.MedicationsOfClean | lib/medical-utils.js:151-158 | pieces that are already trimmed words are all kept, in order |
| MedicalUtils.ParseMedicationStringOfJoin | lib/medical-utils.js:147-161 | parsing a comma-joined list of separator-free trimmed names gives back exactly those names |
| MedicalUtils.MedicationsOfConcat | lib/medical-utils.js:151-158 | pieces are parsed one after another, so the medications of concatenated pieces are concatenated |
| MedicalUtils.MedicationsOfPiece | lib/medical-utils.js:152-157 | one piece gives the medication named by its trim, or nothing when it is blank |
| MedicalUtils.MedicationsOfPadded | lib/medical-utils.js:151-158 | pieces that are not blank are all kept, each as its trim, in order |
| MedicalUtils.ParseMedicationStringOfPaddedJoin | lib/medical-utils.js:147-161 | white-space-padded, non-blank pieces joined by a comma or a line break parse to their trims, in order |
| MedicalUtils.ParseMedicationStringExample | lib/medical-utils.js:147-161 | `"aspirin, ibuprofen"` parses to `aspirin` and `ibuprofen`, the second piece trimmed |
| MedicalUtils.DetectEmergencyKeywords | lib/medical-utils.js:166-176 | true iff the lower-cased text contains one of the 19 emergency phrases |
| MedicalUtils.DetectionIgnoresCase | lib/medical-utils.js:174-175 | lower-casing the text first does not change the result |
| MedicalUtils.DetectionInContext | lib/medical-utils.js:174-175 | text around an emergency phrase does not hide it |
| MedicalUtils.ShoutedChestPainDetected | lib/medical-utils.js:166-176 | `CHEST PAIN` is detected |
| Text.JoinSplit | app/api/forms/route.js:54-55 | splitting at a character and joining with it gives back the string |
| Text.SplitJoin | lib/medical-utils.js:152 | joining separator-free pieces and splitting again gives the pieces back |
| Text.ContainsIff | lib/medical-utils.js:175 | the `includes` scan succeeds iff the phrase occurs at some offset |
| FormWizard.StepValid | app/form/page.js:93-106 | step 1 is valid iff the five personal values are non-empty; steps 2 to 4 always; any other step never |
| FormWizard.StepOneSubmissionHasRequiredFields | app/form/page.js:93-96 | a submission that step 1 lets through passes the forms route's required-field gate |
| FormWizard.SubmissionOf | app/form/page.js:131-138 | the submitted body carries every entered value as given, and record i is image i's name, data and size, one per image in order |
| FormWizard.Wizard.constructor | app/form/page.js:35-53 | the wizard starts at step 1 with the signed-in name and empty fields |
| FormWizard.Wizard.HandleInputChange | app/form/page.js:55-60 | exactly the named field takes the new value |
| FormWizard.Wizard.NextStep | app/form/page.js:108-112 | the step advances iff it is valid and before the last; the step stays in 1 to 4 |
| FormWizard.Wizard.PrevStep | app/form/page.js:114-118 | the step goes back iff it is after the first; the step stays in 1 to 4 |
| FormWizard.Wizard.HandleImageUpload | app/form/page.js:62-87 | reads start for exactly the files whose type starts with `image/`, in order |
| FormWizard.Wizard.OnImageRead | app/form/page.js:68-75 | the finished read's image is appended at the end of the list |
| FormWizard.Wizard.RemoveImage | app/form/page.js:89-91 | the list becomes the list without that id |
| FormWizard.Wizard.HandleSubmit | app/form/page.js:120-138 | nothing is sent iff the current step is invalid; otherwise the form and its images are |
| ImageList.RemoveById | app/form/page.js:89-91 | no kept image has the id, and every kept image was in the list |
| ImageList.RemoveByIdKeepsOthers | app/form/page.js:90 | every image with another id stays |
| ImageList.RemoveAbsentId | app/form/page.js:90 | removing an id that is not there changes nothing |
| ImageList.RemoveOneOfDistinct | app/form/page.js:90 | removing a unique id keeps the others in their order |
| ImageList.RemoveByIdIdempotent | app/form/page.js:90 | removing twice is removing once |
| ImageList.ImageFiles | app/form/page.js:65-66 | every file read has an `image/` type and comes from the selection |
| ImageList.ImageFilesComplete | app/form/page.js:65-66 | every image file of the selection is read |
| ImageUpload.AdmittedAsWritten | components/ImageUpload.js:19-20 | as written: nothing is admitted at or above the limit, and only accepted types are admitted |
| ImageUpload.AdmissionOverflows | components/ImageUpload.js:19-20 | six JPEG files chosen at once with no image yet are all admitted, one over the default limit of five |
| ImageUpload.AdmittedCapped | components/ImageUpload.js:19-20 | corrected: the images held plus the admitted files never exceed the limit, and only accepted types are admitted |
| ImageUpload.CappedAgreesWhenBatchFits | components/ImageUpload.js:19-20 | when the whole selection fits, the corrected rule admits what the written rule admits |
| ImageUpload.Uploader.constructor | components/ImageUpload.js:5-12 | the component starts with no image, no pending read and no notification |
| ImageUpload.Uploader.HandleImageUploadAsWritten | components/ImageUpload.js:16-40 | the `forEach` admits the files of the written rule |
| ImageUpload.Uploader.HandleImageUpload | components/ImageUpload.js:16-40 | the corrected loop admits the files of the capped rule and keeps images plus pending reads within the limit |
| ImageUpload.Uploader.OnLoad | components/ImageUpload.js:22-35 | the loaded image is appended at the end and the updated list is passed to `onImagesChange` |
| ImageUpload.Uploader.RemoveImage | components/ImageUpload.js:68-74 | the list loses exactly that id and the updated list is passed on |

## Left out

- Rendering: JSX, icons, the progress bar, drag state and the pages that only display data are not modelled.
- The system prompt and the model name are constants fixed when the model object is built; the provider parameter stands for both.
- Authentication, the database driver, the language-model SDK and `Buffer` base64 are foreign calls, modelled as parameters.
- Gemini.GenerateMedicalResponse: the provider is a function of the parts alone, so retries, streaming and non-deterministic answers of the real model are not modelled.
- Logging (`console.log`, `console.warn`, `console.error`) has no effect on the results and is left out.
- Floating point: `calculateBMI`, `formatMedicalData`, `validateWeight`, `validateHeight` and `formatFileSize` use `parseFloat`, rounding and logarithms. `getBMICategory` alone is modelled, over exact reals.
- Db.CallWithRetry: the `setTimeout` waits are a ghost list of delays, not real time.
- The retry wrapper is defined but never applied to the database object (lib/db.js:47-50). The store's storage calls therefore throw at their first failure, and the wrapper is modelled standalone.
- Concurrency: simultaneous requests on one conversation are not modelled; each request runs alone against the store.
- Text: white space, `\s` and lower-casing cover ASCII only; Unicode white space and case mapping are not modelled.
- Validation.SanitizeInput, Validation.SanitizeMedicalText, Validation.ValidateImageFile: lengths and truncation count characters, not UTF-16 code units. In JavaScript a character outside the Basic Multilingual Plane counts 2 in `slice(0, 10000)`, `slice(0, 5000)` and `name.length > 255`, and the slice can split its surrogate pair. The model counts it once.
- Orders the source leaves open: the messages selection of the chat route has no `orderBy`, and the model reads the transcript in insertion order. This cannot change a reply, since `generateMedicalResponse` never reads its history. Store.ByRecency also fixes one order among conversations with equal `updatedAt`, where `orderBy(desc(updatedAt))` allows any. "In stored order" in this model describes the model, not a promise of the program.
- Identifiers: the `uuid` keys of the forms', conversations' and messages' tables are positions in the store's tables, the users' text id from the authentication provider is a map key, and the `limit(1)` of the selections is implied by the ids being unique.
- Store.Database.Chat, Store.Database.CreateConversation: a conversation or form id is a table position, so a string that is not a UUID cannot be passed. The database rejects such an id in the first selection, and the routes' `catch` answers 500. In the model that is the fault `FailAt(0, e)` with `e` not connection-class, for which both methods answer `DatabaseFailure(e)`, that is 500, with nothing changed.
- A single `now` stands for every `new Date()` of one request.
- Image ids (`Date.now() + Math.random()`) are method arguments.
- A failing `request.json()` or `request.formData()` is not modelled; it ends in the routes' generic 500.
- A failing profile lookup in the forms route is not a separate case: it has the same effect as a failing user insert (no user row, 500).
- Store.StoredAge: the 32-bit `integer` column range is the only insert-time constraint on the age that is modelled.
- JsNumber.ParseInt: exact integers; the precision loss of `parseInt` above 2^53 is not modelled.
- FormWizard.Wizard.HandleSubmit: only the early return and the payload are modelled; the 503 alerts, the chained conversation request and the redirect are left out.
- FormWizard.Wizard.HandleImageUpload: a read that fails or is aborted only shows an alert. Such a file is simply never passed to `OnImageRead`.
- ImageUpload.Uploader: the `disabled` flag and the file input reference only affect rendering.

## Findings

| source | as written | input that shows it | evidently intended | confidence | as-written member | corrected member |
|---|---|---|---|---|---|---|
| components/ImageUpload.js:19-20 | every file of one selection is admitted against `images.length` as it was when the selection began, so the files being read are not counted | six JPEG files chosen at once with no image yet and the default `maxImages` of 5: all six are admitted | at most `maxImages` images held or being read | not executed | ImageUpload.AdmissionOverflows | ImageUpload.Uploader.HandleImageUpload |
