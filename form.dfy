/** The survey form component: one mutable cell per input, the list of
    additional questions and the error map, with the handlers that update
    them. */
module Form {
  import opened Topics
  import opened Questions
  import opened Validation
  import opened SurveySummary

  /** What a submission ends in: the summary text that is shown, or a
      rejection that leaves the error messages on the form. */
  datatype SubmitOutcome = Accepted(summary: string) | Rejected

  /** `f` with the string-valued input `k` set to `value`. */
  function WithText(f: FormState, k: Field, value: string): FormState
    requires k != YearsOfExperience
  {
    match k
    case FullName => f.(fullName := value)
    case Email => f.(email := value)
    case SurveyTopic => f.(surveyTopic := value)
    case FavoriteLanguage => f.(favoriteLanguage := value)
    case ExerciseFrequency => f.(exerciseFrequency := value)
    case DietPreference => f.(dietPreference := value)
    case HighestQualification => f.(highestQualification := value)
    case FieldOfStudy => f.(fieldOfStudy := value)
    case Feedback => f.(feedback := value)
  }

  /** After the check of `k` turned `before` into `after`, one more field is
      reported correctly. */
  lemma Advance(f: FormState, before: map<Field, string>, after: map<Field, string>,
                checked: set<Field>, k: Field) returns (checked': set<Field>)
    requires Reported(f, before, checked) && k !in checked
    requires after == Checked(f, before, k)
    ensures checked' == checked + {k} && Reported(f, after, checked')
  {
    CheckedReports(f, before, checked, k);
    checked' := checked + {k};
  }

  /** The same for the two checks of one topic. */
  lemma AdvanceTwo(f: FormState, before: map<Field, string>, after: map<Field, string>,
                   checked: set<Field>, j: Field, k: Field) returns (checked': set<Field>)
    requires Reported(f, before, checked) && j !in checked && k !in checked && j != k
    requires after == Checked(f, Checked(f, before, j), k)
    ensures checked' == checked + {j, k} && Reported(f, after, checked')
  {
    CheckedReports(f, before, checked, j);
    CheckedReports(f, Checked(f, before, j), checked + {j}, k);
    checked' := checked + {j, k};
  }

  /** One more labelled line, written the way `handleSubmit` appends it:
      caption, then answer, then a line break. */
  lemma AppendLine(lines: seq<string>, caption: string, answer: string) returns (lines': seq<string>)
    ensures lines' == lines + [caption + answer]
    ensures Unlines(lines') == Unlines(lines) + caption + answer + "\n"
  {
    UnlinesSnoc(lines, caption + answer);
    lines' := lines + [caption + answer];
  }

  /** The fields, gathered in the order `validateForm` checks them. */
  lemma AllFieldsInOrder()
    ensures {FullName, Email, SurveyTopic} + {FavoriteLanguage, YearsOfExperience}
      + {ExerciseFrequency, DietPreference} + {HighestQualification, FieldOfStudy}
      + {Feedback} == AllFields
  {
  }

  const Blank := FormState("", "", "", "", Empty, "", "", "", "", "")

  class SurveyForm {
    var fullName: string
    var email: string
    var surveyTopic: string
    var favoriteLanguage: string
    var yearsOfExperience: NumberInput
    var exerciseFrequency: string
    var dietPreference: string
    var highestQualification: string
    var fieldOfStudy: string
    var feedback: string
    var additionalQuestions: seq<Question>
    var errors: map<Field, string>

    /** The values of all inputs. */
    function Snapshot(): FormState
      reads this
    {
      FormState(fullName, email, surveyTopic, favoriteLanguage, yearsOfExperience,
        exerciseFrequency, dietPreference, highestQualification, fieldOfStudy, feedback)
    }

    /** The additional questions are always an entry of the table, and once
        a topic is chosen they are that topic's. */
    ghost predicate Valid()
      reads this
    {
      && IsTableEntry(additionalQuestions)
      && (surveyTopic != "" ==> additionalQuestions == QuestionsFor(surveyTopic))
    }

    /** Every cell starts empty. */
    constructor ()
      ensures Valid()
      ensures Snapshot() == Blank
      ensures additionalQuestions == [] && errors == map[]
    {
      fullName, email, surveyTopic, favoriteLanguage := "", "", "", "";
      yearsOfExperience := Empty;
      exerciseFrequency, dietPreference, highestQualification, fieldOfStudy := "", "", "", "";
      feedback := "";
      additionalQuestions := [];
      errors := map[];
    }

    /** The topic select's change handler together with the effect that
        follows it: the table lookup runs only for a non-empty topic. No
        other answer is cleared. */
    method SetTopic(topic: string)
      requires Valid()
      modifies this
      ensures Valid()
      ensures Snapshot() == old(Snapshot()).(surveyTopic := topic)
      ensures additionalQuestions == if topic != "" then QuestionsFor(topic) else old(additionalQuestions)
      ensures errors == old(errors)
    {
      QuestionsDistinguishTopics(topic, topic);
      surveyTopic := topic;
      if surveyTopic != "" {
        additionalQuestions := QuestionsFor(surveyTopic);
      }
    }

    /** The change handler of a text or select input. */
    method SetField(k: Field, value: string)
      requires Valid()
      requires k != YearsOfExperience
      modifies this
      ensures Valid()
      ensures Snapshot() == WithText(old(Snapshot()), k, value)
      ensures k != SurveyTopic ==> additionalQuestions == old(additionalQuestions)
      ensures k == SurveyTopic ==>
        additionalQuestions == if value != "" then QuestionsFor(value) else old(additionalQuestions)
      ensures errors == old(errors)
    {
      match k
      case FullName => fullName := value;
      case Email => email := value;
      case SurveyTopic => SetTopic(value);
      case FavoriteLanguage => favoriteLanguage := value;
      case ExerciseFrequency => exerciseFrequency := value;
      case DietPreference => dietPreference := value;
      case HighestQualification => highestQualification := value;
      case FieldOfStudy => fieldOfStudy := value;
      case Feedback => feedback := value;
    }

    /** The change handler of the years-of-experience number input. */
    method SetYears(y: NumberInput)
      requires Valid()
      modifies this
      ensures Valid()
      ensures Snapshot() == old(Snapshot()).(yearsOfExperience := y)
      ensures additionalQuestions == old(additionalQuestions) && errors == old(errors)
    {
      yearsOfExperience := y;
    }

    /** `validateForm`: builds the error map rule by rule, replaces the
        stored map with it, and reports whether it is empty. */
    method ValidateForm() returns (ok: bool)
      modifies this`errors
      ensures errors == Validate(Snapshot())
      ensures ok <==> errors == map[]
    {
      var newErrors := CollectErrors();
      ReportedIsValidate(Snapshot(), newErrors);
      errors := newErrors;
      ok := newErrors == map[];
    }

    /** The rules of `validateForm`, run in the order of the source on an
        initially empty map. The ghost `checked` holds the fields whose rules
        have run so far. */
    method CollectErrors() returns (newErrors: map<Field, string>)
      ensures Reported(Snapshot(), newErrors, AllFields)
    {
      ghost var f := Snapshot();
      newErrors := CheckIdentity();
      ghost var checked := {FullName, Email, SurveyTopic};
      newErrors := CheckTechnology(newErrors, checked);
      checked := checked + {FavoriteLanguage, YearsOfExperience};
      newErrors := CheckHealth(newErrors, checked);
      checked := checked + {ExerciseFrequency, DietPreference};
      newErrors := CheckEducation(newErrors, checked);
      checked := checked + {HighestQualification, FieldOfStudy};

      ghost var before := newErrors;
      if feedback == "" || |feedback| < MinFeedbackLength {
        newErrors := newErrors[Feedback := FeedbackTooShort];
      }
      checked := Advance(f, before, newErrors, checked, Feedback);
      AllFieldsInOrder();
    }

    /** The checks of the full name, the e-mail address and the topic, which
        run whatever the topic. */
    method CheckIdentity() returns (newErrors: map<Field, string>)
      ensures Reported(Snapshot(), newErrors, {FullName, Email, SurveyTopic})
    {
      ghost var f := Snapshot();
      ghost var checked: set<Field> := {};
      newErrors := map[];

      ghost var before := newErrors;
      if fullName == "" {
        newErrors := newErrors[FullName := FullNameRequired];
      }
      checked := Advance(f, before, newErrors, checked, FullName);

      before := newErrors;
      if email == "" {
        newErrors := newErrors[Email := EmailRequired];
      } else if !EmailCheck.ValidEmail(email) {
        newErrors := newErrors[Email := EmailNotValid];
      }
      checked := Advance(f, before, newErrors, checked, Email);

      before := newErrors;
      if surveyTopic == "" {
        newErrors := newErrors[SurveyTopic := SurveyTopicRequired];
      }
      checked := Advance(f, before, newErrors, checked, SurveyTopic);
    }

    /** The checks of the Technology answers, which run only for that topic. */
    method CheckTechnology(m: map<Field, string>, ghost checked: set<Field>)
      returns (newErrors: map<Field, string>)
      requires FavoriteLanguage !in checked && YearsOfExperience !in checked
      requires Reported(Snapshot(), m, checked)
      ensures Reported(Snapshot(), newErrors, checked + {FavoriteLanguage, YearsOfExperience})
    {
      newErrors := m;
      if surveyTopic == Technology {
        if favoriteLanguage == "" {
          newErrors := newErrors[FavoriteLanguage := FavoriteLanguageRequired];
        }
        if yearsOfExperience.Empty? || yearsOfExperience.value <= 0 {
          newErrors := newErrors[YearsOfExperience := YearsOfExperienceRequired];
        }
      }
      ghost var done := AdvanceTwo(Snapshot(), m, newErrors, checked, FavoriteLanguage, YearsOfExperience);
    }

    /** The checks of the Health answers, which run only for that topic. */
    method CheckHealth(m: map<Field, string>, ghost checked: set<Field>)
      returns (newErrors: map<Field, string>)
      requires ExerciseFrequency !in checked && DietPreference !in checked
      requires Reported(Snapshot(), m, checked)
      ensures Reported(Snapshot(), newErrors, checked + {ExerciseFrequency, DietPreference})
    {
      newErrors := m;
      if surveyTopic == Health {
        if exerciseFrequency == "" {
          newErrors := newErrors[ExerciseFrequency := ExerciseFrequencyRequired];
        }
        if dietPreference == "" {
          newErrors := newErrors[DietPreference := DietPreferenceRequired];
        }
      }
      ghost var done := AdvanceTwo(Snapshot(), m, newErrors, checked, ExerciseFrequency, DietPreference);
    }

    /** The checks of the Education answers, which run only for that topic. */
    method CheckEducation(m: map<Field, string>, ghost checked: set<Field>)
      returns (newErrors: map<Field, string>)
      requires HighestQualification !in checked && FieldOfStudy !in checked
      requires Reported(Snapshot(), m, checked)
      ensures Reported(Snapshot(), newErrors, checked + {HighestQualification, FieldOfStudy})
    {
      newErrors := m;
      if surveyTopic == Education {
        if highestQualification == "" {
          newErrors := newErrors[HighestQualification := HighestQualificationRequired];
        }
        if fieldOfStudy == "" {
          newErrors := newErrors[FieldOfStudy := FieldOfStudyRequired];
        }
      }
      ghost var done := AdvanceTwo(Snapshot(), m, newErrors, checked, HighestQualification, FieldOfStudy);
    }

    /** `handleSubmit`: validates, then on success builds the summary line by
        line. No answer changes either way. */
    method Submit() returns (outcome: SubmitOutcome)
      requires Valid()
      modifies this`errors
      ensures Valid()
      ensures Snapshot() == old(Snapshot()) && additionalQuestions == old(additionalQuestions)
      ensures errors == Validate(Snapshot())
      ensures outcome == if errors == map[] then Accepted(Summary(Snapshot())) else Rejected
    {
      var ok := ValidateForm();
      if ok {
        var message := BuildSummary();
        outcome := Accepted(message);
      } else {
        outcome := Rejected;
      }
    }

    /** The summary text of `handleSubmit`: every line but the feedback,
        then the feedback line with no break after it. */
    method BuildSummary() returns (message: string)
      ensures message == Summary(Snapshot())
    {
      message := BuildLeadingLines();
      message := message + FeedbackCaption + feedback;
    }

    /** The lines of the summary before the feedback, appended one by one,
        each followed by a break. The ghost `lines` holds the lines written
        so far. */
    method BuildLeadingLines() returns (message: string)
      ensures message == Unlines(LeadingLines(Snapshot()))
    {
      ghost var f := Snapshot();
      ghost var lines := [Header];
      message := Header + "\n";
      assert message == Unlines(lines);
      message := message + FullNameCaption + fullName + "\n";
      lines := AppendLine(lines, FullNameCaption, fullName);
      message := message + EmailCaption + email + "\n";
      lines := AppendLine(lines, EmailCaption, email);
      message := message + TopicCaption + surveyTopic + "\n";
      lines := AppendLine(lines, TopicCaption, surveyTopic);
      if surveyTopic == Technology {
        message := message + LanguageCaption + favoriteLanguage + "\n";
        lines := AppendLine(lines, LanguageCaption, favoriteLanguage);
        message := message + YearsCaption + NumberText(yearsOfExperience) + "\n";
        lines := AppendLine(lines, YearsCaption, NumberText(yearsOfExperience));
      } else if surveyTopic == Health {
        message := message + ExerciseCaption + exerciseFrequency + "\n";
        lines := AppendLine(lines, ExerciseCaption, exerciseFrequency);
        message := message + DietCaption + dietPreference + "\n";
        lines := AppendLine(lines, DietCaption, dietPreference);
      } else if surveyTopic == Education {
        message := message + QualificationCaption + highestQualification + "\n";
        lines := AppendLine(lines, QualificationCaption, highestQualification);
        message := message + StudyCaption + fieldOfStudy + "\n";
        lines := AppendLine(lines, StudyCaption, fieldOfStudy);
      }
      assert lines == LeadingLines(f);
    }
  }
}
