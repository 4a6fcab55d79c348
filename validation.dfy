/** The validator of the survey form: from a snapshot of the field values it
    computes the map from field to error message. The form may be submitted
    exactly when the map is empty. */
module Validation {
  import opened Topics
  import opened EmailCheck

  /** The keys of the error map: one per input of the form. */
  datatype Field =
    | FullName | Email | SurveyTopic | FavoriteLanguage | YearsOfExperience
    | ExerciseFrequency | DietPreference | HighestQualification | FieldOfStudy | Feedback

  /** The value of the number input for years of experience: nothing typed,
      or an integer. */
  datatype NumberInput = Empty | Number(value: int)

  /** The values of all inputs at one moment. */
  datatype FormState = FormState(
    fullName: string,
    email: string,
    surveyTopic: string,
    favoriteLanguage: string,
    yearsOfExperience: NumberInput,
    exerciseFrequency: string,
    dietPreference: string,
    highestQualification: string,
    fieldOfStudy: string,
    feedback: string)

  const MinFeedbackLength: nat := 50

  const FullNameRequired := "Full Name is required"
  const EmailRequired := "Email is required"
  const EmailNotValid := "Email is not valid"
  const SurveyTopicRequired := "Survey Topic is required"
  const FavoriteLanguageRequired := "Favorite Programming Language is required"
  const YearsOfExperienceRequired := "Years of Experience is required and must be greater than 0"
  const ExerciseFrequencyRequired := "Exercise Frequency is required"
  const DietPreferenceRequired := "Diet Preference is required"
  const HighestQualificationRequired := "Highest Qualification is required"
  const FieldOfStudyRequired := "Field of Study is required"
  const FeedbackTooShort := "Feedback is required and must be at least 50 characters"

  const AllFields: set<Field> := {FullName, Email, SurveyTopic, FavoriteLanguage,
    YearsOfExperience, ExerciseFrequency, DietPreference, HighestQualification,
    FieldOfStudy, Feedback}

  /** The fields checked whatever the topic. */
  const CommonFields: set<Field> := {FullName, Email, SurveyTopic, Feedback}

  /** The fields that belong to one topic. */
  const TopicOnlyFields: set<Field> := {FavoriteLanguage, YearsOfExperience, ExerciseFrequency,
    DietPreference, HighestQualification, FieldOfStudy}

  /** The fields that belong to `topic` alone. */
  function TopicFields(topic: string): set<Field> {
    if topic == Technology then {FavoriteLanguage, YearsOfExperience}
    else if topic == Health then {ExerciseFrequency, DietPreference}
    else if topic == Education then {HighestQualification, FieldOfStudy}
    else {}
  }

  /** `!yearsOfExperience || yearsOfExperience <= 0`. */
  predicate YearsMissing(y: NumberInput) {
    y.Empty? || y.value <= 0
  }

  /** The rule of field `k` fails on `f`. */
  predicate Violates(f: FormState, k: Field): (b: bool)
    ensures b ==> k in CommonFields + TopicFields(f.surveyTopic)
  {
    match k
    case FullName => f.fullName == ""
    case Email => f.email == "" || !ValidEmail(f.email)
    case SurveyTopic => f.surveyTopic == ""
    case FavoriteLanguage => f.surveyTopic == Technology && f.favoriteLanguage == ""
    case YearsOfExperience => f.surveyTopic == Technology && YearsMissing(f.yearsOfExperience)
    case ExerciseFrequency => f.surveyTopic == Health && f.exerciseFrequency == ""
    case DietPreference => f.surveyTopic == Health && f.dietPreference == ""
    case HighestQualification => f.surveyTopic == Education && f.highestQualification == ""
    case FieldOfStudy => f.surveyTopic == Education && f.fieldOfStudy == ""
    case Feedback => |f.feedback| < MinFeedbackLength
  }

  /** The message shown under field `k`. */
  function Message(f: FormState, k: Field): (r: string)
    ensures r != ""
    ensures k == Email ==> (r == EmailRequired <==> f.email == "")
  {
    match k
    case FullName => FullNameRequired
    case Email => if f.email == "" then EmailRequired else EmailNotValid
    case SurveyTopic => SurveyTopicRequired
    case FavoriteLanguage => FavoriteLanguageRequired
    case YearsOfExperience => YearsOfExperienceRequired
    case ExerciseFrequency => ExerciseFrequencyRequired
    case DietPreference => DietPreferenceRequired
    case HighestQualification => HighestQualificationRequired
    case FieldOfStudy => FieldOfStudyRequired
    case Feedback => FeedbackTooShort
  }

  /** The answers of the chosen topic are all given: the positive reading of
      the topic-specific rules. */
  ghost predicate TopicAnswered(f: FormState) {
    if f.surveyTopic == Technology then
      f.favoriteLanguage != "" && f.yearsOfExperience.Number? && f.yearsOfExperience.value > 0
    else if f.surveyTopic == Health then
      f.exerciseFrequency != "" && f.dietPreference != ""
    else if f.surveyTopic == Education then
      f.highestQualification != "" && f.fieldOfStudy != ""
    else
      true
  }

  /** A form the validator lets through, stated field by field. */
  ghost predicate Acceptable(f: FormState) {
    && f.fullName != ""
    && EmailShape(f.email)
    && f.surveyTopic != ""
    && TopicAnswered(f)
    && |f.feedback| >= MinFeedbackLength
  }

  /** The error map of `validateForm`: every failing rule reported with its
      message, none other. */
  function Validate(f: FormState): (errors: map<Field, string>)
    ensures FullName in errors <==> f.fullName == ""
    ensures Email in errors <==> !EmailShape(f.email)
    ensures SurveyTopic in errors <==> f.surveyTopic == ""
    ensures Feedback in errors <==> |f.feedback| < MinFeedbackLength
  {
    ValidEmailMeaning(f.email);
    map k | k in AllFields && Violates(f, k) :: Message(f, k)
  }

  /** `m` reports exactly the failing rules among `keys`, with their messages. */
  ghost predicate Reported(f: FormState, m: map<Field, string>, keys: set<Field>) {
    && m.Keys <= keys
    && forall k :: k in keys ==> (k in m <==> Violates(f, k)) && (k in m ==> m[k] == Message(f, k))
  }

  /** The check of field `k`, applied to a partial error map. */
  function Checked(f: FormState, m: map<Field, string>, k: Field): map<Field, string> {
    if Violates(f, k) then m[k := Message(f, k)] else m
  }

  // ---------------------------------------------------------------------
  // Lemmas

  /** One more check extends what a partial map reports by one key. */
  lemma CheckedReports(f: FormState, m: map<Field, string>, keys: set<Field>, k: Field)
    requires Reported(f, m, keys) && k !in keys
    ensures Reported(f, Checked(f, m, k), keys + {k})
  {
  }

  /** Every value of `Field` is in `AllFields`. */
  lemma AllFieldsComplete(k: Field)
    ensures k in AllFields
  {
    match k {
      case FullName => case Email => case SurveyTopic => case FavoriteLanguage =>
      case YearsOfExperience => case ExerciseFrequency => case DietPreference =>
      case HighestQualification => case FieldOfStudy => case Feedback =>
    }
  }

  /** A map that reports exactly the failing rules, with their messages, is
      the validator's. */
  lemma ReportedIsValidate(f: FormState, m: map<Field, string>)
    requires Reported(f, m, AllFields)
    ensures m == Validate(f)
  {
    forall k: Field ensures k in AllFields {
      AllFieldsComplete(k);
    }
  }

  /** Each message belongs to one field: from the message alone the field
      it is shown under can be told. */
  lemma MessageNamesField(f: FormState, g: FormState, j: Field, k: Field)
    requires Message(f, j) == Message(g, k)
    ensures j == k
  {
  }

  /** The validator reports nothing exactly when the form is acceptable. */
  lemma EmptyIffAcceptable(f: FormState)
    ensures Validate(f) == map[] <==> Acceptable(f)
  {
    var e := Validate(f);
    if Acceptable(f) {
      forall k | k in AllFields ensures !Violates(f, k) {
      }
      assert e.Keys == {};
    } else {
      var k :| k in AllFields && Violates(f, k);
      assert k in e;
    }
  }

  /** Only the always-checked fields and those of the chosen topic can be
      reported. */
  lemma KeysWithinTopic(f: FormState)
    ensures Validate(f).Keys <= CommonFields + TopicFields(f.surveyTopic)
  {
    forall k | k in Validate(f) ensures k in CommonFields + TopicFields(f.surveyTopic) {
    }
  }

  /** The e-mail key has two exclusive outcomes: "required" for an empty
      address, "not valid" for a non-empty one that fails the pattern. */
  lemma EmailOutcomes(f: FormState)
    ensures f.email == "" ==> Validate(f)[Email] == EmailRequired
    ensures f.email != "" && !ValidEmail(f.email) ==> Validate(f)[Email] == EmailNotValid
    ensures ValidEmail(f.email) ==> f.email != "" && Email !in Validate(f)
  {
  }

  /** The topic-specific keys follow the topic, and with no topic chosen
      only `surveyTopic` among the topic keys is reported. */
  lemma TopicKeysFollowTopic(f: FormState)
    ensures var e := Validate(f);
      && (FavoriteLanguage in e <==> f.surveyTopic == Technology && f.favoriteLanguage == "")
      && (YearsOfExperience in e <==> f.surveyTopic == Technology && YearsMissing(f.yearsOfExperience))
      && (ExerciseFrequency in e <==> f.surveyTopic == Health && f.exerciseFrequency == "")
      && (DietPreference in e <==> f.surveyTopic == Health && f.dietPreference == "")
      && (HighestQualification in e <==> f.surveyTopic == Education && f.highestQualification == "")
      && (FieldOfStudy in e <==> f.surveyTopic == Education && f.fieldOfStudy == "")
    ensures f.surveyTopic == "" ==> SurveyTopic in Validate(f) && Validate(f).Keys <= CommonFields
  {
    KeysWithinTopic(f);
    assert FavoriteLanguage in AllFields && YearsOfExperience in AllFields;
    assert ExerciseFrequency in AllFields && DietPreference in AllFields;
    assert HighestQualification in AllFields && FieldOfStudy in AllFields;
  }

  /** The feedback boundary: 49 characters are too few, 50 are enough. */
  lemma FeedbackBoundary(f: FormState, g: FormState)
    requires |f.feedback| == 49 && |g.feedback| == 50
    ensures Feedback in Validate(f) && Validate(f)[Feedback] == FeedbackTooShort
    ensures Feedback !in Validate(g)
  {
  }

  /** Two snapshots that agree on the always-checked fields, on the topic and
      on the answers of that topic give the same error map: answers left
      over from another topic are ignored. */
  lemma ValidateIgnoresOtherTopics(f: FormState, g: FormState)
    requires f.fullName == g.fullName && f.email == g.email && f.feedback == g.feedback
    requires f.surveyTopic == g.surveyTopic
    requires f.surveyTopic == Technology ==>
      f.favoriteLanguage == g.favoriteLanguage && f.yearsOfExperience == g.yearsOfExperience
    requires f.surveyTopic == Health ==>
      f.exerciseFrequency == g.exerciseFrequency && f.dietPreference == g.dietPreference
    requires f.surveyTopic == Education ==>
      f.highestQualification == g.highestQualification && f.fieldOfStudy == g.fieldOfStudy
    ensures Validate(f) == Validate(g)
  {
    forall k | k in AllFields
      ensures Violates(f, k) == Violates(g, k) && Message(f, k) == Message(g, k)
    {
    }
  }
}
