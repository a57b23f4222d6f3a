# Dubai Metro / Tram customer survey — a Dafny model of the survey wizard

The survey form (`components/survey-form.tsx`) is a four-step wizard:
"Your Information", "Your Experience", "Your Feedback" and "Share Photos".
A progress bar follows the steps. Eleven demographic answers are required.
Metro and tram each have their own question catalog and station list. Any number of
photos can be attached, each with a comment. On the last step
the form is validated and turned into a multipart payload.

This project models the form's pure state handling:

- `SurveyConfig` (`config.dfy`) holds the constants. These are the 5 MiB limit, the accepted image
  types, the steps, the 32 schema fields with their wire names and schema
  order, the metro and tram catalogs with their wording, and the two
  station lists.
- `Wizard` (`wizard.dfy`) holds the step cursor and the progress bar ("Next", "Previous").
- `Attachments` (`attachments.dfy`) covers the upload guard, appending a photo, editing its comment
  and removing it.
- `FormSchema` (`form_schema.dfy`) covers the form values, the default values and the validation
  schema: the eleven required fields and their messages.
- `ModeSelection` (`mode_selection.dfy`) is the effect that swaps catalog and station list when the
  transport type changes, plus the service name in the thank-you text.
- `StationSlug` (`station_slug.dfy`) holds the station option values
  (`toLowerCase().replace(/\s+/g, "-")`) and the lookup of a station by its value.
- `Payload` (`payload.dfy`) is the `FormData` the submit handler builds. It is given once as a
  function and once as the handler's two loops, and the two are proved equal.
- `Survey` (`survey.dfy`) is the whole form as a state machine over user events, with the
  invariant every event preserves.
- `Outcomes` (`outcomes.dfy`) holds the `Option` and `Result` types.

File and form values are modelled as values. The browser's `FileReader` result
(the photo preview) is a parameter of the upload event.

## Model

| member | source | states |
|---|---|---|
| SurveyConfig.SchemaIndex | components/survey-form.tsx:24-64 | every field of the form has a position in the schema's key order, so it is visited when the values are enumerated |
| SurveyConfig.CleanlinessDiffers | components/survey-form.tsx:155-159 | the tram catalog's cleanliness category is the station question alone; metro adds the two washroom questions; the other categories are the same fields |
| SurveyConfig.TramFieldsAreMetroFieldsWithoutWashrooms | components/survey-form.tsx:132-205 | metro asks 17 rating questions; the tram list is the metro list with the washroom questions (positions 12 and 13) removed, order kept |
| SurveyConfig.WordingDiffersOnlyInVehicle | components/survey-form.tsx:132-205 | every question the tram catalog asks is also a metro question, and on those the two wordings agree except for the six that name the vehicle or the metro station |
| SurveyConfig.SameTextOutsideVehicle | components/survey-form.tsx:132-205 | a question the tram catalog asks that names neither the vehicle nor the metro station has a text in both modes, and the same one |
| SurveyConfig.ExperienceQuestion | components/survey-form.tsx:165-168 | the open-ended experience prompt names the mode's service, "Dubai Metro" or "Dubai Tram" (tram text at line 202) |
| SurveyConfig.ImprovementQuestion | components/survey-form.tsx:165-168 | the improvement prompt asks about the mode's service, "Dubai Metro service" or "Dubai Tram service" (tram text at line 203) |
| SurveyConfig.FeedbackFollowsMode | components/survey-form.tsx:132-205 | each catalog carries its own mode's open-ended prompts, which name that mode's service |
| SurveyConfig.TrainSecurityWording | components/survey-form.tsx:132-205 | the vehicle safety question reads "Inside the train is safe and secure" for metro and "Inside the tram is safe and secure" for tram |
| SurveyConfig.Wording | components/survey-form.tsx:132-205 | a field has a question text in a mode exactly when that mode's catalog asks it, and only rating questions have one |
| SurveyConfig.WordingIffAsked | components/survey-form.tsx:132-205 | metro words all seventeen rating questions; tram words all of them except the two washroom questions, and no other field has a text |
| SurveyConfig.WashroomWordingOnlyInMetro | components/survey-form.tsx:155-159 | the washroom questions read "The washrooms are available" and "The washrooms are well maintained" in metro mode and have no text in tram mode, whose cleanliness category at line 195 is the station question alone |
| SurveyConfig.MetroAsks | components/survey-form.tsx:132-164 | the metro catalog asks exactly the seventeen rating questions |
| SurveyConfig.TramAsks | components/survey-form.tsx:172-205 | the tram catalog asks exactly the rating questions other than the two washroom questions |
| SurveyConfig.CatalogAsks | components/survey-form.tsx:132-205 | a mode's catalog asks a field exactly when it is a rating question, leaving out the washroom questions in tram mode |
| SurveyConfig.InRatingFields | components/survey-form.tsx:132-205 | a catalog asks a field exactly when one of its seven categories lists it |
| SurveyConfig.CatalogFieldIsRating | components/survey-form.tsx:132-205 | every field a catalog lists is one of the rating questions |
| SurveyConfig.CatalogQuestionsHaveWording | components/survey-form.tsx:132-205 | every question either catalog asks is a rating question and has a text in that mode |
| Wizard.Next | components/survey-form.tsx:279-289 | "Next" advances the cursor by one and sets the bar to the new step's share, except on the last step where nothing changes; a valid state stays valid |
| Wizard.Prev | components/survey-form.tsx:291-301 | "Previous" moves the cursor back by one and sets the bar to the new step's share, except on the first step; a valid state stays valid |
| Wizard.Title | components/survey-form.tsx:435 | the heading is the title of the step the cursor is on, from "Your Information" at step 0 to "Share Photos" at step 3 |
| Wizard.RunPreservesValid | components/survey-form.tsx:208-301 | after any sequence of Next/Previous/restart clicks the cursor lies in 0..3 and the bar in 25..100, matching the cursor |
| Wizard.NextThenPrev | components/survey-form.tsx:279-301 | away from the last step, "Previous" undoes "Next" |
| Wizard.PrevThenNext | components/survey-form.tsx:279-301 | away from the first step, "Next" undoes "Previous" |
| Wizard.ForwardsSaturate | components/survey-form.tsx:279-289 | n clicks on "Next" move the cursor n steps forward, stopping at the last step |
| Wizard.AdvanceThreeThenBack | components/survey-form.tsx:279-301 | from the start, three "Next" reach step 3 at 100%, a fourth changes nothing, and one "Previous" gives step 2 at 75% |
| Attachments.AlertText | components/survey-form.tsx:344-355 | the size alert reads "File size must be less than 5MB" and the type alert "Only .jpg, .jpeg, .png and .webp files are accepted", each for its own error only |
| Attachments.CheckFile | components/survey-form.tsx:345-359 | a file passes exactly when it is at most 5 MiB and of an accepted type; an oversized file reports the size error whatever its type |
| Attachments.HandleUpload | components/survey-form.tsx:341-381 | an empty selection, and only that, does nothing; only the first file is considered; it is appended, with an empty comment, exactly when it passes the guard; otherwise it is rejected with the guard's error and the list is left alone |
| Attachments.UpdateComment | components/survey-form.tsx:383-387 | the photo at the index gets the new comment and keeps its file and preview; every other photo is unchanged |
| Attachments.Without | components/survey-form.tsx:389-390 | filtering out one index removes exactly that element, and removes nothing when the index is outside the list |
| Attachments.RemoveImage | components/survey-form.tsx:389-390 | removal shortens the list by one and shifts later photos down by one, keeping order; an index outside the list changes nothing |
| Attachments.RemoveUndoesUpload | components/survey-form.tsx:361-370 | removing the photo just added gives back the previous list |
| Attachments.RemoveForgetsComment | components/survey-form.tsx:383-390 | editing a comment and then removing that photo leaves the same list as removing it directly |
| Attachments.UpdateCommentLastWins | components/survey-form.tsx:383-387 | two edits of one comment leave only the second text |
| Attachments.SixMegabyteJpegRejected | components/survey-form.tsx:345-351 | a 6 MB JPEG is refused for its size and nothing is stored |
| Attachments.SmallGifRejected | components/survey-form.tsx:353-359 | a 1 KB GIF passes the size check but is refused for its type, and the list is unchanged |
| Attachments.SizeLimitIsInclusive | components/survey-form.tsx:20 | a file of exactly 5 MiB is accepted; one byte more is refused as too large |
| FormSchema.Validate | components/survey-form.tsx:26-36 | the errors are exactly the required fields that are not non-empty strings; a too-short string gets the schema's own message, a missing value zod's "Required", a list zod's array message; optional fields never produce an error |
| FormSchema.WellTypedFormShowsSchemaMessages | components/survey-form.tsx:26-36 | on a form whose required fields hold strings, every failing field is an empty string and shows the schema's own message |
| FormSchema.WritingTextKeepsWellTyped | components/survey-form.tsx:24-64 | writing a string into any field but the photo comments keeps the value kinds the schema expects |
| FormSchema.DefaultFormIsWellTyped | components/survey-form.tsx:219-237 | the default values give every required field a string and the photo comments a list |
| FormSchema.PassesIffRequiredFilled | components/survey-form.tsx:26-36 | the schema accepts a form if and only if all eleven required fields hold non-empty strings |
| FormSchema.OptionalFieldNeverRejects | components/survey-form.tsx:38-63 | writing any optional field, whatever the value, leaves the validation result unchanged |
| FormSchema.FillingClearsItsError | components/survey-form.tsx:26-36 | filling a required field with a non-empty string removes its error and no other |
| FormSchema.QuestionFieldsAreOptional | components/survey-form.tsx:38-63 | every rating question of either catalog, and the four open-ended fields, are optional |
| FormSchema.DefaultFormRejectsEveryRequiredField | components/survey-form.tsx:219-237 | the default values fail validation on each of the eleven required fields, with its own message, and on no other field |
| ModeSelection.ParseMode | components/survey-form.tsx:243-253 | only "metro" and "tram" name a mode, and the mode found is the one named |
| ModeSelection.OnTransportType | components/survey-form.tsx:243-253 | "metro" and "tram" select their catalog and station list and record the type; any other value keeps the previous selection; a consistent selection stays consistent |
| ModeSelection.ChoiceNamesService | components/survey-form.tsx:243-253 | after choosing a mode, whatever was shown before, the thank-you text names that mode's service |
| ModeSelection.FollowShowsLastMode | components/survey-form.tsx:213-253 | after any series of transport-type values, the form shows the catalog of the last value that named a mode, or the initial metro catalog if none did |
| ModeSelection.ClearingKeepsMode | components/survey-form.tsx:243-253 | clearing the transport type (as a form reset does) keeps the previously chosen catalog |
| ModeSelection.ServiceName | components/survey-form.tsx:406-407 | the thank-you text says "Metro" exactly when the metro catalog is shown; before any mode is recorded it says "Tram" |
| StationSlug.ToLower | components/survey-form.tsx:672 | every character is lower-cased in place, the result has no upper-case letter, and lower-case text is unchanged |
| StationSlug.CollapseRuns | components/survey-form.tsx:672 | replacing whitespace runs never lengthens the text |
| StationSlug.CollapseRunsClean | components/survey-form.tsx:672 | replacing runs of whitespace leaves no whitespace and adds no upper-case letter |
| StationSlug.CollapseRunsKeepsWords | components/survey-form.tsx:672 | on text without whitespace the replacement changes nothing |
| StationSlug.Slug | components/survey-form.tsx:672 | an option value has no whitespace and no upper-case letter, and is no longer than the station name |
| StationSlug.WordIsKept | components/survey-form.tsx:672 | a word without whitespace is copied unchanged |
| StationSlug.RunBecomesOneDash | components/survey-form.tsx:672 | a run of whitespace of any length becomes a single "-" |
| StationSlug.ContinuedRunVanishes | components/survey-form.tsx:672 | whitespace that continues a run adds nothing further |
| StationSlug.SlugIsIdempotent | components/survey-form.tsx:672 | applying the slug to an option value gives the same value back |
| StationSlug.TwoWordSlug | components/survey-form.tsx:672 | two words separated by whitespace become the lower-cased words joined by one "-" |
| StationSlug.AlRiggaSlug | components/survey-form.tsx:672 | "Al Rigga" gives "al-rigga" |
| StationSlug.AlRiggaDoubleSpaceSlug | components/survey-form.tsx:672 | "Al  Rigga", with two spaces, also gives "al-rigga" |
| StationSlug.FirstMatch | components/survey-form.tsx:657-659 | the position found is the first station whose value matches, or the list length if none does |
| StationSlug.FindStation | components/survey-form.tsx:657-659 | the station found is the first in the list whose option value matches; nothing is found exactly when no station has the value |
| StationSlug.LookupFindsSelectedStation | components/survey-form.tsx:657-672 | for a list whose values are distinct, looking up a station's option value finds that station |
| Payload.FormParts | components/survey-form.tsx:310-314 | the form values give at most one part per field, each a text part |
| Payload.Stringify | components/survey-form.tsx:312 | a string is sent as itself; an empty list as ""; a non-empty list of comma-free items as a string that splits back into the list |
| Payload.KeysNameTheIndex | components/survey-form.tsx:318-319 | each attachment key is `image-` or `image-comment-` followed by a numeral that denotes the attachment's index |
| Payload.FormPartsMembership | components/survey-form.tsx:310-314 | every present value contributes its text part, and every part comes from a present value |
| Payload.Join | components/survey-form.tsx:312 | a list's string starts with its first item and ends with its last; the empty list gives "" |
| Payload.SplitWithoutComma | components/survey-form.tsx:312 | a comma-free string is one piece when split on "," |
| Payload.SplitAfterComma | components/survey-form.tsx:312 | a comma followed by a comma-free piece adds exactly that piece to the split |
| Payload.JoinSplitRoundTrip | components/survey-form.tsx:312 | joining a non-empty list of comma-free strings with "," and splitting the result gives the list back |
| Payload.Decimal | components/survey-form.tsx:318-319 | an index is rendered as a string of decimal digits that denotes it, with no leading zero |
| Payload.FirstAttachmentKeys | components/survey-form.tsx:318-319 | the first attachment's keys are `image-0` and `image-comment-0` |
| Payload.DecimalInjective | components/survey-form.tsx:318-319 | different indices are rendered differently |
| Payload.ImageParts | components/survey-form.tsx:317-320 | attachment i contributes its file under `image-i` and its comment under `image-comment-i`, at parts 2i and 2i+1 |
| Payload.AssemblePayload | components/survey-form.tsx:307-320 | the handler's two loops build the form parts in schema order followed by the attachment parts |
| Payload.BuildPayload | components/survey-form.tsx:307-320 | the payload ends with the two parts per attachment; before them come at most one text part per schema field |
| Payload.AttachmentKeysDistinct | components/survey-form.tsx:318-319 | no file key equals a comment key, and equal keys of one kind have equal indices |
| Payload.AttachmentPartsUseOnlyIndices | components/survey-form.tsx:317-320 | every attachment part is keyed by the index of an existing attachment |
| Payload.AttachmentPartsCoverIndices | components/survey-form.tsx:317-320 | every attachment has both its file part and its comment part |
| Payload.AttachmentPartsInPayload | components/survey-form.tsx:317-320 | every attachment's file part and comment part reach the payload |
| Payload.PayloadCarriesExactlyPresentValues | components/survey-form.tsx:310-320 | the payload holds a part for every present form value and otherwise only attachment parts |
| Payload.Submit | components/survey-form.tsx:441 | submission is refused, with the validation errors, exactly when a required field is unfilled; otherwise the full payload is built, carrying every required answer and every attachment |
| Survey.Step | components/survey-form.tsx:341-441 | a refused submission changes nothing; a sent one had a valid form; a rejected upload carries its alert text and only a rejected one does; "Submit Another Response" resets step, values and photos but keeps the selection |
| Survey.OnlyTileValuesSetTransportType | components/survey-form.tsx:462-504 | a transport-type value other than the two tiles' "metro" and "tram" changes nothing |
| Survey.StepPreservesInv | components/survey-form.tsx:208-441 | every event keeps the cursor, bar, mode and value kinds consistent, keeps the form's transport type empty or equal to the recorded one, and a refused submission shows each failing field's own schema message |
| Survey.RunPreservesInv | components/survey-form.tsx:208-253 | after any event sequence the cursor lies in 0..3 with a matching bar, the selection belongs to one mode, the form's transport type is empty or the shown mode's, required fields hold strings, and a thank-you screen implies a valid form |
| Survey.PassingFormShowsItsMode | components/survey-form.tsx:243-253 | in a reachable state a passing form names metro or tram, the catalog, stations and recorded type shown are that mode's, and the thank-you text names it |
| Survey.PromptsNameTheThankedService | components/survey-form.tsx:397-408 | in a reachable state with a passing form, the open-ended prompts and the thank-you text name the same service |
| Survey.StartSatisfiesInv | components/survey-form.tsx:208-237 | the initial state satisfies the invariant |
| Survey.MissingFieldBlocksSubmission | components/survey-form.tsx:26-36 | a submit with a required field missing is refused with zod's message for that value and nothing changes; in a reachable state the field is an empty string and the message is the schema's own |
| Survey.StartOverKeepsCatalog | components/survey-form.tsx:409-420 | starting over returns to step 0 at 25%, with the default values and no photos, but keeps the last mode's catalog |
| Survey.SubmitSendsPayload | components/survey-form.tsx:303-320 | on the last step a valid form is sent with its full payload and the thank-you screen follows |
| Survey.PhotoWithCommentScenario | components/survey-form.tsx:341-390 | uploading a PNG, commenting "nice view" and submitting sends `image-0` with the file and `image-comment-0` with the comment |
| Survey.MetroSubmissionScenario | components/survey-form.tsx:397-408 | in a reachable state whose form says "metro", a valid submission goes out with the metro selection, and the thank-you text names the Metro service |
| Survey.OversizedUploadScenario | components/survey-form.tsx:345-351 | an oversized upload in the full form is refused with the "File size must be less than 5MB" alert and changes nothing |
| Survey.ChoosingModeKeepsOtherAnswers | components/survey-form.tsx:243-253 | choosing metro or tram shows that mode's catalog and stations, records the mode so the thank-you text names its service, and leaves every other answer alone |

## Left out

- Speech synthesis, the hearing-assistance flag and `localStorage`: these are announcements and browser I/O with no effect on form state.
- The accessibility toggle, the page and layout components, and the vision mode: these are presentation only.
- The asynchronous `FileReader`: the decode is taken as synchronous, with its result a parameter. Two quick uploads can race on the stale `uploadedImages` in the source; that race is not modelled.
- The `setTimeout` before the thank-you screen, `console.log`, and the `isSubmitting` flag, which relabels and disables the submit button while the simulated send is pending: submission is modelled as one step, so there is no pending window in which a second click could arrive.
- Type checks zod applies to optional fields, and its stripping of unknown keys: the model's form holds only schema fields. The controls write only strings and never the photo comments, and the survey invariant keeps that shape, so these checks never fire in the model's reachable states.
- FormSchema.Validate: a missing value stands for `undefined`, reported as "Required". A `null` value, for which zod reports "Expected string, received null", is not distinguished.
- Per-step rendering of the controls: field edits, uploads, comment edits and removals are accepted on every step, although their controls are rendered only on one step each. react-hook-form keeps all values registered, so the values themselves are the same.
- Survey.Step: submission is modelled only through the "Submit Survey" button on the last step. Implicit submission by pressing Enter in a text field on an earlier step is not modelled.
- Survey.Step: a transport-type value other than "metro" or "tram" is ignored. The tiles write only those two, and the reset writes "" through "Submit Another Response"; a value such as "bus" cannot arise.
- Survey.Step: an out-of-range comment edit is ignored. The source would fail on a missing element, but its comment boxes exist only for listed photos.
- StationSlug.Slug: lower-cases ASCII letters only. `toLowerCase` on other scripts is not modelled; all station names are ASCII.
- StationSlug.LookupFindsSelectedStation: distinct option values are a hypothesis. They are not proved for the two concrete station lists, because evaluating the slug on long literal names is beyond the solver here.
- Payload.AssemblePayload: the form's values are enumerated in schema order, which is the order of zod's parsed output. Key order of `Object.entries` on other objects is not modelled.
- StationSlug.CollapseRuns: its own contract only bounds the length. What the replacement does is stated by CollapseRunsClean, CollapseRunsKeepsWords, WordIsKept, RunBecomesOneDash and ContinuedRunVanishes.
- Payload.FormParts: its own contract bounds the count and the kind of the parts. Which parts appear is stated by FormPartsMembership.
- Payload.Join: its contract fixes the first and last item and the empty list; the full shape is stated by the round trip with `Split`, which needs comma-free items, because `String` cannot tell `["a,b"]` from `["a", "b"]`.
- The network request: the source only simulates sending the payload, and the model stops at the built payload.
