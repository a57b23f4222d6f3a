/**
  The form's values and its validation schema: eleven required text fields
  that must be non-empty, every other field optional.
 */
module FormSchema {
  import opened SurveyConfig

  /**
    A form value: a string, a list of strings (the photo comments), or
    nothing (`undefined`/`null`).
   */
  datatype FieldValue = Text(s: string) | TextList(items: seq<string>) | Absent

  /** The form's values; a field with no entry reads as `Absent`. */
  type Form = map<Field, FieldValue>

  function Get(f: Form, field: Field): FieldValue {
    if field in f then f[field] else Absent
  }

  /** The eleven fields the schema requires, with the message shown when one is missing. */
  function RequiredMessage(field: Field): string {
    match field
    case TransportType => "Please select Metro or Tram"
    case Gender => "Please select your gender"
    case Age => "Please select your age group"
    case Nationality => "Please enter your nationality"
    case DepartureStation => "Please select your departure station"
    case ArrivalStation => "Please select your arrival station"
    case NolCardType => "Please select your Nol Card type"
    case ResidencyStatus => "Please select your residency status"
    case FrequentTraveler => "Please indicate if you are a frequent traveler"
    case Frequency => "Please select how often you use the Metro/Tram"
    case TimeOfDay => "Please select your usual time of travel"
    case _ => ""
  }

  /** The demographic fields, the only ones the schema requires. */
  predicate Required(field: Field) {
    || field.TransportType? || field.Gender? || field.Age? || field.Nationality?
    || field.DepartureStation? || field.ArrivalStation? || field.NolCardType?
    || field.ResidencyStatus? || field.FrequentTraveler? || field.Frequency? || field.TimeOfDay?
  }

  /** A required field passes when it holds a string of length at least 1. */
  predicate Filled(v: FieldValue) {
    v.Text? && |v.s| >= 1
  }

  /**
    The message zod gives a required field that fails: a missing value
    fails the type check ("Required"), a list fails it as an array, and only
    a string that is too short gets the schema's own message.
   */
  function IssueMessage(field: Field, v: FieldValue): string {
    match v
    case Absent => "Required"
    case TextList(_) => "Expected string, received array"
    case Text(_) => RequiredMessage(field)
  }

  /**
    The schema check run before the submit handler: every required field
    that is not a non-empty string, mapped to its message.
   */
  function Validate(f: Form): (errors: map<Field, string>)
    ensures forall field :: field in errors ==> Required(field)
    ensures forall field :: Required(field) ==> (field in errors <==> !Filled(Get(f, field)))
    ensures forall field :: field in errors ==> errors[field] == IssueMessage(field, Get(f, field))
    ensures forall field :: field in errors && Get(f, field).Text? ==> errors[field] == RequiredMessage(field)
  {
    map field | Required(field) && !Filled(Get(f, field)) :: IssueMessage(field, Get(f, field))
  }

  /**
    The shape the form's own controls give the values: every required field
    holds a string, the photo comments are never a string, and no other field
    is ever a list.
   */
  ghost predicate WellTyped(f: Form) {
    forall field ::
      && (Required(field) ==> Get(f, field).Text?)
      && (field == PhotoComments ==> !Get(f, field).Text?)
      && (field != PhotoComments ==> !Get(f, field).TextList?)
  }

  /** On a well-typed form, every failing field shows the schema's own message. */
  lemma WellTypedFormShowsSchemaMessages(f: Form)
    requires WellTyped(f)
    ensures forall field :: field in Validate(f) ==> Validate(f)[field] == RequiredMessage(field)
    ensures forall field :: field in Validate(f) ==> Get(f, field) == Text("")
  {
  }

  /** Writing a string into any field but the photo comments keeps a well-typed form well typed. */
  lemma WritingTextKeepsWellTyped(f: Form, field: Field, value: string)
    requires field != PhotoComments
    ensures WellTyped(f) ==> WellTyped(f[field := Text(value)])
  {
    if WellTyped(f) {
      forall other
        ensures && (Required(other) ==> Get(f[field := Text(value)], other).Text?)
                && (other == PhotoComments ==> !Get(f[field := Text(value)], other).Text?)
                && (other != PhotoComments ==> !Get(f[field := Text(value)], other).TextList?)
      {
        if other != field {
          assert Get(f[field := Text(value)], other) == Get(f, other);
        }
      }
    }
  }

  predicate Passes(f: Form) {
    Validate(f) == map[]
  }

  /** Submission is allowed exactly when all eleven required fields are non-empty strings. */
  lemma PassesIffRequiredFilled(f: Form)
    ensures Passes(f) <==>
      && Filled(Get(f, TransportType)) && Filled(Get(f, Gender)) && Filled(Get(f, Age))
      && Filled(Get(f, Nationality)) && Filled(Get(f, DepartureStation))
      && Filled(Get(f, ArrivalStation)) && Filled(Get(f, NolCardType))
      && Filled(Get(f, ResidencyStatus)) && Filled(Get(f, FrequentTraveler))
      && Filled(Get(f, Frequency)) && Filled(Get(f, TimeOfDay))
  {
    if !Passes(f) {
      var field :| field in Validate(f);
    }
  }

  /** Writing any field outside the required eleven never changes the verdict. */
  lemma OptionalFieldNeverRejects(f: Form, field: Field, v: FieldValue)
    requires !Required(field)
    ensures Validate(f[field := v]) == Validate(f)
  {
  }

  /** Filling a required field with a non-empty string removes exactly its error. */
  lemma FillingClearsItsError(f: Form, field: Field, s: string)
    requires Required(field) && |s| >= 1
    ensures Validate(f[field := Text(s)]) == Validate(f) - {field}
  {
    var after := Validate(f[field := Text(s)]);
    assert forall k :: k in after <==> k in Validate(f) && k != field;
    assert after.Keys == (Validate(f) - {field}).Keys;
  }

  /** The rating questions of both catalogs are all optional, as are the open-ended ones. */
  lemma QuestionFieldsAreOptional(m: Mode)
    ensures forall field :: field in RatingFields(CatalogFor(m)) ==> !Required(field)
    ensures !Required(HappinessLevel) && !Required(HappinessComment)
    ensures !Required(ImprovementSuggestion) && !Required(PhotoComments)
  {
    var c := CatalogFor(m);
    assert RatingFields(c) == c.safety + c.wayfindingStations + c.wayfindingTrains + c.punctuality
      + c.comfort + c.cleanliness + c.employees;
    forall field | field in RatingFields(c) ensures !Required(field) {
      assert field in c.safety || field in c.wayfindingStations || field in c.wayfindingTrains
        || field in c.punctuality || field in c.comfort || field in c.cleanliness
        || field in c.employees;
    }
  }

  /**
    The fields `defaultValues` names: the eleven required ones, the two
    open-ended texts and the photo comments.
   */
  predicate HasDefault(field: Field) {
    Required(field) || field.HappinessComment? || field.ImprovementSuggestion? || field.PhotoComments?
  }

  /** The values the form is created with, and reset to: empty strings and an empty comment list. */
  const DefaultForm: Form :=
    map field | HasDefault(field) :: if field == PhotoComments then TextList([]) else Text("")

  /** The default values already have the shape the controls keep. */
  lemma DefaultFormIsWellTyped()
    ensures WellTyped(DefaultForm)
  {
    forall field
      ensures && (Required(field) ==> Get(DefaultForm, field).Text?)
              && (field == PhotoComments ==> !Get(DefaultForm, field).Text?)
              && (field != PhotoComments ==> !Get(DefaultForm, field).TextList?)
    {
      if HasDefault(field) {
        assert Get(DefaultForm, field) == if field == PhotoComments then TextList([]) else Text("");
      } else {
        assert Get(DefaultForm, field) == Absent;
      }
    }
  }

  /** A freshly created form fails validation on every one of the eleven required fields. */
  lemma DefaultFormRejectsEveryRequiredField()
    ensures forall field :: field in Validate(DefaultForm) <==> Required(field)
    ensures forall field :: field in Validate(DefaultForm) ==> Validate(DefaultForm)[field] == RequiredMessage(field)
    ensures !Passes(DefaultForm)
  {
    DefaultFormIsWellTyped();
    WellTypedFormShowsSchemaMessages(DefaultForm);
    forall field | Required(field)
      ensures field in Validate(DefaultForm)
    {
      assert HasDefault(field);
      assert Get(DefaultForm, field) == Text("");
    }
    assert TransportType in Validate(DefaultForm);
  }
}
