/**
  The survey form as a whole: the wizard, the form values, the photo list
  and the mode selection, driven by the events its controls produce.
 */
module Survey {
  import opened Outcomes
  import opened SurveyConfig
  import W = Wizard
  import opened FormSchema
  import opened Attachments
  import opened Payload
  import MS = ModeSelection

  datatype Survey = Survey(
    wizard: W.Wizard,
    form: Form,
    images: seq<Attachment>,
    selection: MS.Selection,
    submitted: bool)

  /** One user action on a control of the form. */
  datatype Event =
    | NextClicked
    | PrevClicked
    | FieldChanged(field: Field, value: string)
    | FilesChosen(files: seq<ImageFile>, preview: string)
    | CommentEdited(index: int, text: string)
    | PhotoRemoved(index: int)
    | SubmitClicked
    | StartOver

  /** What the user gets back from an event, besides the new state. */
  datatype Output =
    | Quiet
    | UploadResult(outcome: UploadOutcome, alert: Option<string>)
    | Sent(payload: seq<Part>)
    | Invalid(errors: ValidationErrors)

  datatype Transition = Transition(next: Survey, output: Output)

  const Start: Survey := Survey(W.Initial, DefaultForm, [], MS.Initial, false)

  /**
    The transport type in the form is either still empty or the type the
    selection recorded; with a consistent selection, that fixes the catalog
    and stations shown.
   */
  ghost predicate ShowsFormMode(s: Survey) {
    || Get(s.form, TransportType) == Text("")
    || Get(s.form, TransportType) == Text(s.selection.transportType)
  }

  ghost predicate Inv(s: Survey) {
    && W.Valid(s.wizard)
    && MS.Consistent(s.selection)
    && WellTyped(s.form)
    && ShowsFormMode(s)
    && (s.submitted ==> Passes(s.form))
  }

  /**
    Handles one event. Three kinds of event are ignored because their
    control is not on screen: after submission only "Submit Another
    Response" is shown; the submit button exists only on the last step; a
    comment box exists only for a photo in the list. Every control writes a
    string, and none writes the photo comments. The transport-type tiles
    write only "metro" or "tram", so any other value for that field is
    ignored.
   */
  function Step(s: Survey, e: Event): (t: Transition)
    ensures t.output.Invalid? ==> t.next == s && t.output.errors == Validate(s.form)
    ensures t.output.UploadResult? ==>
      && (t.output.outcome.Rejected? ==> t.output.alert == Some(AlertText(t.output.outcome.error)))
      && (!t.output.outcome.Rejected? ==> t.output.alert == None)
    ensures t.output.Sent? ==> Passes(s.form) && t.next.submitted && t.next.form == s.form
    ensures e.StartOver? && s.submitted ==>
      t.next == Survey(W.Initial, DefaultForm, [], s.selection, false)
  {
    if s.submitted then
      if e.StartOver? then Transition(Survey(W.Initial, DefaultForm, [], s.selection, false), Quiet)
      else Transition(s, Quiet)
    else
      match e
      case NextClicked => Transition(s.(wizard := W.Next(s.wizard)), Quiet)
      case PrevClicked => Transition(s.(wizard := W.Prev(s.wizard)), Quiet)
      case FieldChanged(field, v) =>
        if field == PhotoComments || (field == TransportType && MS.ParseMode(v).None?) then Transition(s, Quiet)
        else
          var sel := if field == TransportType then MS.OnTransportType(s.selection, v) else s.selection;
          Transition(s.(form := s.form[field := Text(v)], selection := sel), Quiet)
      case FilesChosen(files, preview) =>
        var u := HandleUpload(s.images, files, preview);
        var alert := if u.outcome.Rejected? then Some(AlertText(u.outcome.error)) else None;
        Transition(s.(images := u.images), UploadResult(u.outcome, alert))
      case CommentEdited(i, text) =>
        if 0 <= i < |s.images| then Transition(s.(images := UpdateComment(s.images, i, text)), Quiet)
        else Transition(s, Quiet)
      case PhotoRemoved(i) => Transition(s.(images := RemoveImage(s.images, i)), Quiet)
      case SubmitClicked =>
        if s.wizard.currentStep != LastStep then Transition(s, Quiet)
        else
          var r := Submit(s.form, s.images);
          if r.Err? then Transition(s, Invalid(r.error))
          else Transition(s.(submitted := true), Sent(r.value))
      case StartOver => Transition(s, Quiet)
  }

  /**
    Every event keeps the invariant, and a refused submission of a state
    the form can reach shows each failing field's own schema message.
   */
  lemma StepPreservesInv(s: Survey, e: Event)
    requires Inv(s)
    ensures Inv(Step(s, e).next)
    ensures Step(s, e).output.Invalid? ==>
      forall field :: field in Step(s, e).output.errors ==> Step(s, e).output.errors[field] == RequiredMessage(field)
  {
    if s.submitted && e.StartOver? {
      DefaultFormIsWellTyped();
      assert HasDefault(TransportType);
    } else if !s.submitted && e.FieldChanged? && e.field != PhotoComments {
      WritingTextKeepsWellTyped(s.form, e.field, e.value);
    } else if !s.submitted && e.SubmitClicked? {
      WellTypedFormShowsSchemaMessages(s.form);
    }
  }

  function Run(s: Survey, events: seq<Event>): Survey
    decreases |events|
  {
    if |events| == 0 then s else Run(Step(s, events[0]).next, events[1..])
  }

  /**
    Any sequence of user actions keeps the cursor in [0, 3] with a matching
    progress bar, a catalog and station list of one mode, and a form that
    passed validation whenever the thank-you screen is shown.
   */
  lemma {:induction false} RunPreservesInv(s: Survey, events: seq<Event>)
    requires Inv(s)
    ensures Inv(Run(s, events))
    ensures 0 <= Run(s, events).wizard.currentStep <= 3
    ensures Run(s, events).wizard.progress == (Run(s, events).wizard.currentStep + 1) * 25
    decreases |events|
  {
    if |events| > 0 {
      StepPreservesInv(s, events[0]);
      RunPreservesInv(Step(s, events[0]).next, events[1..]);
    }
  }

  lemma StartSatisfiesInv()
    ensures Inv(Start)
  {
    assert W.Valid(Start.wizard);
    assert MS.Consistent(Start.selection);
    assert WellTyped(Start.form) by {
      DefaultFormIsWellTyped();
    }
    assert ShowsFormMode(Start) by {
      assert HasDefault(TransportType);
    }
  }

  /**
    A submission with a required field missing is refused with that field's
    message, and nothing is cleared or changed.
   */
  lemma MissingFieldBlocksSubmission(s: Survey, field: Field)
    requires !s.submitted && s.wizard.currentStep == LastStep
    requires Required(field) && !Filled(Get(s.form, field))
    ensures Step(s, SubmitClicked) == Transition(s, Invalid(Validate(s.form)))
    ensures field in Validate(s.form)
    ensures Validate(s.form)[field] == IssueMessage(field, Get(s.form, field))
    ensures Inv(s) ==> Get(s.form, field) == Text("") && Validate(s.form)[field] == RequiredMessage(field)
  {
    if Inv(s) {
      WellTypedFormShowsSchemaMessages(s.form);
    }
  }

  /**
    "Submit Another Response" returns to the first step with the default
    values and no photos, but the catalog stays that of the last mode.
   */
  lemma StartOverKeepsCatalog(s: Survey, m: Mode)
    requires s.submitted && s.selection == MS.Selected(m)
    ensures Run(s, [StartOver]).wizard == W.Wizard(0, 25)
    ensures Run(s, [StartOver]).images == []
    ensures Run(s, [StartOver]).form == DefaultForm
    ensures Run(s, [StartOver]).selection.questions == CatalogFor(m)
  {
  }

  /** On the last step, a form that passes is sent with all its photos. */
  lemma SubmitSendsPayload(s: Survey)
    requires !s.submitted && s.wizard.currentStep == LastStep && Passes(s.form)
    ensures Step(s, SubmitClicked) == Transition(s.(submitted := true), Sent(BuildPayload(s.form, s.images)))
  {
  }

  /** Uploading one acceptable PNG and commenting on it leaves exactly that attachment. */
  lemma PhotoWithCommentRun(s: Survey, file: ImageFile, preview: string)
    requires !s.submitted && s.images == []
    requires file.mimeType == "image/png" && file.size <= 5242880
    ensures Run(s, [FilesChosen([file], preview), CommentEdited(0, "nice view")])
         == s.(images := [Attachment(file, preview, "nice view")])
  {
    var s1 := s.(images := [Attachment(file, preview, "")]);
    assert Step(s, FilesChosen([file], preview)).next == s1;
    var s2 := s1.(images := [Attachment(file, preview, "nice view")]);
    assert Step(s1, CommentEdited(0, "nice view")).next == s2;
    var evs := [FilesChosen([file], preview), CommentEdited(0, "nice view")];
    assert evs[1..] == [CommentEdited(0, "nice view")];
    assert Run(s, evs) == Run(s1, [CommentEdited(0, "nice view")]);
    assert Run(s1, [CommentEdited(0, "nice view")]) == Run(s2, []);
  }

  /**
    A respondent with every required field filled uploads one PNG, comments
    "nice view" and submits: the payload carries the photo as `image-0` and
    the comment as `image-comment-0`.
   */
  lemma PhotoWithCommentScenario(s: Survey, file: ImageFile, preview: string)
    requires !s.submitted && s.images == [] && s.wizard.currentStep == LastStep
    requires Passes(s.form)
    requires file.mimeType == "image/png" && file.size <= 5242880
    ensures var s2 := Run(s, [FilesChosen([file], preview), CommentEdited(0, "nice view")]);
      && s2.images == [Attachment(file, preview, "nice view")]
      && Step(s2, SubmitClicked).output.Sent?
      && Part("image-0", FilePart(file)) in Step(s2, SubmitClicked).output.payload
      && Part("image-comment-0", TextPart("nice view")) in Step(s2, SubmitClicked).output.payload
  {
    PhotoWithCommentRun(s, file, preview);
    var s2 := s.(images := [Attachment(file, preview, "nice view")]);
    SubmitSendsPayload(s2);
    FirstAttachmentKeys();
    AttachmentPartsInPayload(s2.form, s2.images, 0);
  }

  /**
    A metro respondent with every required field filled and no photos
    submits from the last step: the payload goes out and the thank-you text
    names the Metro service.
   */
  lemma MetroSubmissionScenario(s: Survey)
    requires Inv(s) && !s.submitted && s.wizard.currentStep == LastStep && s.images == []
    requires Get(s.form, TransportType) == Text("metro") && Passes(s.form)
    ensures Step(s, SubmitClicked).output == Sent(BuildPayload(s.form, []))
    ensures Step(s, SubmitClicked).next.submitted
    ensures Step(s, SubmitClicked).next.selection == MS.Selected(Metro)
    ensures MS.ServiceName(Step(s, SubmitClicked).next.selection) == "Metro"
  {
    SubmitSendsPayload(s);
  }

  /**
    In a reachable state a form that passes validation names metro or tram,
    and the catalog, stations and thank-you text shown are that mode's.
   */
  lemma PassingFormShowsItsMode(s: Survey)
    requires Inv(s) && Passes(s.form)
    ensures exists m :: Get(s.form, TransportType) == Text(MS.ModeName(m)) && s.selection == MS.Selected(m)
    ensures s.selection.questions == CatalogFor(s.selection.questions.feedback)
    ensures MS.ServiceName(s.selection) == (if s.selection.questions.feedback == Metro then "Metro" else "Tram")
  {
    assert Filled(Get(s.form, TransportType)) by {
      PassesIffRequiredFilled(s.form);
    }
    assert s.selection != MS.Initial;
    if s.selection == MS.Selected(Metro) {
      assert Get(s.form, TransportType) == Text(MS.ModeName(Metro));
    } else {
      assert Get(s.form, TransportType) == Text(MS.ModeName(Tram));
    }
  }

  /**
    In a reachable state with a passing form, the open-ended prompts and the
    thank-you text name the same service.
   */
  lemma PromptsNameTheThankedService(s: Survey)
    requires Inv(s) && Passes(s.form)
    ensures ServiceWord(s.selection.questions.feedback) == MS.ServiceName(s.selection)
    ensures ExperienceQuestion(s.selection.questions.feedback)
         == "Tell us about your experience when using the Dubai " + MS.ServiceName(s.selection)
  {
    PassingFormShowsItsMode(s);
  }

  /**
    A transport-type value other than the tiles' "metro" and "tram" changes
    nothing.
   */
  lemma OnlyTileValuesSetTransportType(s: Survey, v: string)
    requires MS.ParseMode(v).None?
    ensures Step(s, FieldChanged(TransportType, v)).next == s
  {
  }

  /** A 6 MB JPEG is refused for its size and the photo list stays empty. */
  lemma OversizedUploadScenario(s: Survey, preview: string)
    requires !s.submitted && s.images == []
    ensures var t := Step(s, FilesChosen([ImageFile("photo.jpg", 6 * 1024 * 1024, "image/jpeg")], preview));
      && t.output == UploadResult(Rejected(TooLarge), Some("File size must be less than 5MB"))
      && t.next == s
  {
  }

  /**
    Choosing metro or tram shows that mode's catalog and stations, records
    the mode for the thank-you text, and never touches any other field.
   */
  lemma ChoosingModeKeepsOtherAnswers(s: Survey, m: Mode, other: Field)
    requires !s.submitted && other != TransportType
    ensures var t := Step(s, FieldChanged(TransportType, MS.ModeName(m))).next;
      && t.selection.questions == CatalogFor(m)
      && t.selection.stationList == StationsFor(m)
      && t.selection == MS.Selected(m)
      && MS.ServiceName(t.selection) == (if m == Metro then "Metro" else "Tram")
      && Get(t.form, other) == Get(s.form, other)
  {
  }
}
