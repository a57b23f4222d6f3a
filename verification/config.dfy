/**
  The constant configuration of the survey form: the upload limits, the
  wizard steps, the two transport modes with their question catalogs and
  station lists.
 */
module SurveyConfig {
  import opened Outcomes

  /** Largest accepted upload, in bytes (5 MiB). */
  const MaxFileSize: nat := 5 * 1024 * 1024

  /** The MIME types an uploaded photo may have, in the order the form lists them. */
  const AcceptedImageTypes: seq<string> := ["image/jpeg", "image/jpg", "image/png", "image/webp"]

  /** One wizard page: an identifier and the heading shown above the progress bar. */
  datatype Step = Step(id: string, title: string)

  const Steps: seq<Step> := [
    Step("demographics", "Your Information"),
    Step("experience", "Your Experience"),
    Step("feedback", "Your Feedback"),
    Step("photos", "Share Photos")
  ]

  /** Index of the final step, the only one that shows the submit button. */
  const LastStep: nat := |Steps| - 1

  /** The transit network the respondent rates. */
  datatype Mode = Metro | Tram

  /** Every field of the form schema, in the order the schema declares them. */
  datatype Field =
    // demographics, all required
      TransportType | Gender | Age | Nationality | DepartureStation | ArrivalStation | NolCardType
    | ResidencyStatus | FrequentTraveler | Frequency | TimeOfDay
    // rating questions, all optional
    | StaffAvailability | StationSecurity | TrainSecurity | TravelInfo | StationInfoAvailable
    | StationInfoUnderstand | TrainInfoAvailable | TrainInfoUnderstand | TrainService
    | StationTemperature | TrainTemperature | StationCleanliness | WashroomsAvailable
    | WashroomsMaintained | StaffHelpfulness | StaffProfessionalism | StaffResponsiveness
    // open-ended questions and photo comments, all optional
    | HappinessLevel | HappinessComment | ImprovementSuggestion | PhotoComments

  /** The property name a field has in the form values and in the submitted payload. */
  function Key(f: Field): string {
    match f
    case TransportType => "transportType"
    case Gender => "gender"
    case Age => "age"
    case Nationality => "nationality"
    case DepartureStation => "departureStation"
    case ArrivalStation => "arrivalStation"
    case NolCardType => "nolCardType"
    case ResidencyStatus => "residencyStatus"
    case FrequentTraveler => "frequentTraveler"
    case Frequency => "frequency"
    case TimeOfDay => "timeOfDay"
    case StaffAvailability => "staffAvailability"
    case StationSecurity => "stationSecurity"
    case TrainSecurity => "trainSecurity"
    case TravelInfo => "travelInfo"
    case StationInfoAvailable => "stationInfoAvailable"
    case StationInfoUnderstand => "stationInfoUnderstand"
    case TrainInfoAvailable => "trainInfoAvailable"
    case TrainInfoUnderstand => "trainInfoUnderstand"
    case TrainService => "trainService"
    case StationTemperature => "stationTemperature"
    case TrainTemperature => "trainTemperature"
    case StationCleanliness => "stationCleanliness"
    case WashroomsAvailable => "washroomsAvailable"
    case WashroomsMaintained => "washroomsMaintained"
    case StaffHelpfulness => "staffHelpfulness"
    case StaffProfessionalism => "staffProfessionalism"
    case StaffResponsiveness => "staffResponsiveness"
    case HappinessLevel => "happinessLevel"
    case HappinessComment => "happinessComment"
    case ImprovementSuggestion => "improvementSuggestion"
    case PhotoComments => "photoComments"
  }

  /** The schema's fields in declaration order, the order of the parsed form values. */
  const SchemaOrder: seq<Field> := [
    TransportType, Gender, Age, Nationality, DepartureStation, ArrivalStation, NolCardType,
    ResidencyStatus, FrequentTraveler, Frequency, TimeOfDay, StaffAvailability, StationSecurity,
    TrainSecurity, TravelInfo, StationInfoAvailable, StationInfoUnderstand, TrainInfoAvailable,
    TrainInfoUnderstand, TrainService, StationTemperature, TrainTemperature, StationCleanliness,
    WashroomsAvailable, WashroomsMaintained, StaffHelpfulness, StaffProfessionalism,
    StaffResponsiveness, HappinessLevel, HappinessComment, ImprovementSuggestion, PhotoComments
  ]

  /** Where a field sits in the schema order: every field is listed there. */
  function SchemaIndex(f: Field): (k: nat)
    ensures k < |SchemaOrder| && SchemaOrder[k] == f
  {
    match f
    case TransportType => 0
    case Gender => 1
    case Age => 2
    case Nationality => 3
    case DepartureStation => 4
    case ArrivalStation => 5
    case NolCardType => 6
    case ResidencyStatus => 7
    case FrequentTraveler => 8
    case Frequency => 9
    case TimeOfDay => 10
    case StaffAvailability => 11
    case StationSecurity => 12
    case TrainSecurity => 13
    case TravelInfo => 14
    case StationInfoAvailable => 15
    case StationInfoUnderstand => 16
    case TrainInfoAvailable => 17
    case TrainInfoUnderstand => 18
    case TrainService => 19
    case StationTemperature => 20
    case TrainTemperature => 21
    case StationCleanliness => 22
    case WashroomsAvailable => 23
    case WashroomsMaintained => 24
    case StaffHelpfulness => 25
    case StaffProfessionalism => 26
    case StaffResponsiveness => 27
    case HappinessLevel => 28
    case HappinessComment => 29
    case ImprovementSuggestion => 30
    case PhotoComments => 31
  }

  /**
    The rating questions of one mode, grouped by category (the fields, in
    display order), and the mode whose open-ended prompts the feedback step
    shows. The wording of each rating question is given by `Wording`, that
    of the prompts by `ExperienceQuestion` and `ImprovementQuestion`.
   */
  datatype Catalog = Catalog(
    safety: seq<Field>,
    wayfindingStations: seq<Field>,
    wayfindingTrains: seq<Field>,
    punctuality: seq<Field>,
    comfort: seq<Field>,
    cleanliness: seq<Field>,
    employees: seq<Field>,
    feedback: Mode)

  const MetroQuestions: Catalog := Catalog(
    [StaffAvailability, StationSecurity, TrainSecurity],
    [TravelInfo, StationInfoAvailable, StationInfoUnderstand],
    [TrainInfoAvailable, TrainInfoUnderstand],
    [TrainService],
    [StationTemperature, TrainTemperature],
    [StationCleanliness, WashroomsAvailable, WashroomsMaintained],
    [StaffHelpfulness, StaffProfessionalism, StaffResponsiveness],
    Metro)

  const TramQuestions: Catalog := Catalog(
    [StaffAvailability, StationSecurity, TrainSecurity],
    [TravelInfo, StationInfoAvailable, StationInfoUnderstand],
    [TrainInfoAvailable, TrainInfoUnderstand],
    [TrainService],
    [StationTemperature, TrainTemperature],
    [StationCleanliness],
    [StaffHelpfulness, StaffProfessionalism, StaffResponsiveness],
    Tram)

  /** The service a mode's prompts name. */
  function ServiceWord(m: Mode): string {
    if m == Metro then "Metro" else "Tram"
  }

  /** The open-ended prompt about the respondent's experience, naming the catalog's service. */
  function ExperienceQuestion(m: Mode): (q: string)
    ensures q == "Tell us about your experience when using the Dubai " + ServiceWord(m)
  {
    if m == Metro then "Tell us about your experience when using the Dubai Metro"
    else "Tell us about your experience when using the Dubai Tram"
  }

  /** The open-ended prompt asking for improvements, naming the catalog's service. */
  function ImprovementQuestion(m: Mode): (q: string)
    ensures q == "What would you like to improve/enhance about Dubai " + ServiceWord(m) + " service?"
  {
    if m == Metro then "What would you like to improve/enhance about Dubai Metro service?"
    else "What would you like to improve/enhance about Dubai Tram service?"
  }

  /** The seventeen rating questions: the schema's fields between the demographics and the open-ended ones. */
  predicate IsRatingQuestion(f: Field) {
    || f.StaffAvailability? || f.StationSecurity? || f.TrainSecurity? || f.TravelInfo?
    || f.StationInfoAvailable? || f.StationInfoUnderstand? || f.TrainInfoAvailable?
    || f.TrainInfoUnderstand? || f.TrainService? || f.StationTemperature? || f.TrainTemperature?
    || f.StationCleanliness? || f.WashroomsAvailable? || f.WashroomsMaintained?
    || f.StaffHelpfulness? || f.StaffProfessionalism? || f.StaffResponsiveness?
  }

  /** The rating questions whose wording names the vehicle or the metro station. */
  predicate NamesVehicle(f: Field) {
    || f.StationSecurity? || f.TrainSecurity? || f.TrainInfoAvailable? || f.TrainInfoUnderstand?
    || f.TrainService? || f.TrainTemperature?
  }

  /** The two washroom questions, which only the metro catalog asks. */
  predicate IsWashroomQuestion(f: Field) {
    f.WashroomsAvailable? || f.WashroomsMaintained?
  }

  /**
    The text of a question in the given mode: the catalog of that mode asks
    it, or there is none. The two modes differ in "train"/"tram" and
    "metro station"/"station".
   */
  function Wording(m: Mode, f: Field): (q: Option<string>)
    ensures q.Some? <==> f in RatingFields(CatalogFor(m))
    ensures q.Some? ==> IsRatingQuestion(f)
  {
    if f in RatingFields(CatalogFor(m)) then
      CatalogAsks(m, f);
      Some(QuestionText(m, f))
    else None
  }

  /**
    The text of one rating question the mode's catalog asks; tram asks no
    washroom question. `Wording` is the entry point.
   */
  function QuestionText(m: Mode, f: Field): string
    requires IsRatingQuestion(f) && !(m == Tram && IsWashroomQuestion(f))
  {
    var vehicle := if m == Metro then "train" else "tram";
    match f
    case StaffAvailability => "Staff are available in the station"
    case StationSecurity =>
      if m == Metro then "The metro station is secure and safe" else "The station is secure and safe"
    case TrainSecurity =>
      if m == Metro then "Inside the train is safe and secure" else "Inside the tram is safe and secure"
    case TravelInfo =>
      "It is convenient to obtain travel information prior to the trip. (routes, coverage, timings, tariff)"
    case StationInfoAvailable => "Information in stations is easily available"
    case StationInfoUnderstand => "Information in stations is easy to understand"
    case TrainInfoAvailable => "Information inside the " + vehicle + " is easily available"
    case TrainInfoUnderstand => "Information inside the " + vehicle + " is easy to understand"
    case TrainService => (if m == Metro then "Train" else "Tram") + " service is reliable and frequent"
    case StationTemperature => "The temperature and ventilation in the station are pleasant"
    case TrainTemperature => "The temperature and ventilation in the " + vehicle + " are pleasant"
    case StationCleanliness => "The station is clean"
    case WashroomsAvailable => "The washrooms are available"
    case WashroomsMaintained => "The washrooms are well maintained"
    case StaffHelpfulness => "The staff members are helpful and knowledgeable"
    case StaffProfessionalism => "Staff are professional in providing services"
    case StaffResponsiveness => "Staff attentive/responsive to your query most of the times"
  }

  const MetroStations: seq<string> := [
    "Rashidiya", "Emirates", "Airport Terminal 3", "Airport Terminal 1", "GGICO",
    "Deira City Centre", "Al Rigga", "Union", "BurJuman", "Al Fahidi", "Al Jafiliya",
    "World Trade Centre", "Emirates Towers", "Financial Centre", "Burj Khalifa/Dubai Mall",
    "Business Bay", "Noor Bank", "First Abu Dhabi Bank", "Mall of the Emirates",
    "Dubai Internet City", "Mashreq", "Dubai Marina", "DAMAC Properties", "UAE Exchange"
  ]

  const TramStations: seq<string> := [
    "JLT", "Dubai Marina", "Marina Towers", "Mina Seyahi", "Media City", "Palm Jumeirah",
    "Knowledge Village", "Al Sufouh", "Dubai Internet City", "Gateway Towers",
    "Jumeirah Lakes Towers"
  ]

  function CatalogFor(mode: Mode): Catalog {
    match mode
    case Metro => MetroQuestions
    case Tram => TramQuestions
  }

  function StationsFor(mode: Mode): seq<string> {
    match mode
    case Metro => MetroStations
    case Tram => TramStations
  }

  /** Every rating field a catalog asks about, category by category. */
  function RatingFields(c: Catalog): seq<Field> {
    c.safety + c.wayfindingStations + c.wayfindingTrains + c.punctuality + c.comfort
      + c.cleanliness + c.employees
  }

  /**
    The two catalogs differ only in the cleanliness category: tram asks
    about the station alone, metro adds the two washroom questions.
   */
  lemma CleanlinessDiffers()
    ensures TramQuestions.cleanliness == [StationCleanliness]
    ensures MetroQuestions.cleanliness == [StationCleanliness, WashroomsAvailable, WashroomsMaintained]
    ensures TramQuestions.(cleanliness := []) == MetroQuestions.(
      cleanliness := [],
      feedback := Tram)
  {
  }

  /**
    Field by field, the tram catalog is the metro catalog with the two
    washroom questions (positions 12 and 13) taken out; every other field
    keeps its place in the order.
   */
  lemma TramFieldsAreMetroFieldsWithoutWashrooms()
    ensures |RatingFields(MetroQuestions)| == 17
    ensures RatingFields(MetroQuestions)[12..14] == [WashroomsAvailable, WashroomsMaintained]
    ensures RatingFields(TramQuestions)
         == RatingFields(MetroQuestions)[..12] + RatingFields(MetroQuestions)[14..]
  {
  }

  /**
    On the questions both catalogs ask, only the words naming the vehicle and
    the metro station change between the two modes.
   */
  lemma WordingDiffersOnlyInVehicle(f: Field)
    ensures f in RatingFields(TramQuestions) ==> f in RatingFields(MetroQuestions)
    ensures f in RatingFields(TramQuestions) && !NamesVehicle(f) ==> Wording(Metro, f) == Wording(Tram, f)
  {
    if f in RatingFields(TramQuestions) {
      TramAsks(f);
      MetroAsks(f);
      if !NamesVehicle(f) {
        SameTextOutsideVehicle(f);
      }
    }
  }

  /**
    A question tram asks that names neither the vehicle nor the metro
    station has a text in both modes, and the same one.
   */
  lemma SameTextOutsideVehicle(f: Field)
    requires f in RatingFields(TramQuestions) && !NamesVehicle(f)
    ensures Wording(Tram, f).Some?
    ensures Wording(Metro, f) == Wording(Tram, f)
  {
    TramAsks(f);
    MetroAsks(f);
    SharedQuestionText(f);
  }

  /** Proof step: the texts of the questions both modes word alike. */
  lemma SharedQuestionText(f: Field)
    requires IsRatingQuestion(f) && !NamesVehicle(f) && !IsWashroomQuestion(f)
    ensures QuestionText(Metro, f) == QuestionText(Tram, f)
  {
  }

  /** A field is among a catalog's questions exactly when one of its categories lists it. */
  lemma InRatingFields(c: Catalog, f: Field)
    ensures f in RatingFields(c) <==>
      || f in c.safety || f in c.wayfindingStations || f in c.wayfindingTrains
      || f in c.punctuality || f in c.comfort || f in c.cleanliness || f in c.employees
  {
  }

  /** The metro catalog asks every rating question. */
  lemma MetroAsks(f: Field)
    ensures f in RatingFields(MetroQuestions) <==> IsRatingQuestion(f)
  {
    InRatingFields(MetroQuestions, f);
  }

  /** The tram catalog asks every rating question but the two washroom questions. */
  lemma TramAsks(f: Field)
    ensures f in RatingFields(TramQuestions) <==> IsRatingQuestion(f) && !IsWashroomQuestion(f)
  {
    InRatingFields(TramQuestions, f);
  }

  /** Metro asks every rating question; tram asks all but the two washroom questions. */
  lemma CatalogAsks(m: Mode, f: Field)
    ensures f in RatingFields(CatalogFor(m)) <==> IsRatingQuestion(f) && !(m == Tram && IsWashroomQuestion(f))
  {
    if m == Metro {
      MetroAsks(f);
    } else {
      TramAsks(f);
    }
  }

  /** A question has a wording in a mode exactly when it is a rating question that mode asks. */
  lemma WordingIffAsked(m: Mode, f: Field)
    ensures Wording(m, f).Some? <==> IsRatingQuestion(f) && !(m == Tram && IsWashroomQuestion(f))
  {
    CatalogAsks(m, f);
  }

  /** The washroom questions have their text in metro mode and none in tram mode. */
  lemma WashroomWordingOnlyInMetro()
    ensures Wording(Metro, WashroomsAvailable) == Some("The washrooms are available")
    ensures Wording(Metro, WashroomsMaintained) == Some("The washrooms are well maintained")
    ensures Wording(Tram, WashroomsAvailable) == None
    ensures Wording(Tram, WashroomsMaintained) == None
  {
    WordingIffAsked(Metro, WashroomsAvailable);
    WordingIffAsked(Metro, WashroomsMaintained);
    WordingIffAsked(Tram, WashroomsAvailable);
    WordingIffAsked(Tram, WashroomsMaintained);
  }

  /** Each catalog's open-ended prompts are the ones of its own mode. */
  lemma FeedbackFollowsMode(m: Mode)
    ensures CatalogFor(m).feedback == m
    ensures ExperienceQuestion(CatalogFor(m).feedback)
         == "Tell us about your experience when using the Dubai " + ServiceWord(m)
    ensures ImprovementQuestion(CatalogFor(m).feedback)
         == "What would you like to improve/enhance about Dubai " + ServiceWord(m) + " service?"
  {
  }

  /** The safety question about the vehicle, in both wordings. */
  lemma TrainSecurityWording()
    ensures Wording(Metro, TrainSecurity) == Some("Inside the train is safe and secure")
    ensures Wording(Tram, TrainSecurity) == Some("Inside the tram is safe and secure")
  {
  }

  /** Every question a catalog asks is one of the rating questions. */
  lemma CatalogFieldIsRating(m: Mode, f: Field)
    requires f in RatingFields(CatalogFor(m))
    ensures IsRatingQuestion(f)
  {
    var c := CatalogFor(m);
    assert f in c.safety || f in c.wayfindingStations || f in c.wayfindingTrains
      || f in c.punctuality || f in c.comfort || f in c.cleanliness || f in c.employees;
  }

  /** Every question either catalog asks is a rating question, so it has a wording in that mode. */
  lemma CatalogQuestionsHaveWording(m: Mode)
    ensures forall f :: f in RatingFields(CatalogFor(m)) ==> IsRatingQuestion(f) && Wording(m, f).Some?
  {
    forall f | f in RatingFields(CatalogFor(m))
      ensures IsRatingQuestion(f)
    {
      CatalogFieldIsRating(m, f);
    }
  }
}
