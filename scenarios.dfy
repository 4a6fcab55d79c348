/** Worked cases of the survey form: a complete Technology answer that is
    accepted, an incomplete Health answer and the keys it reports, and a
    topic switch that keeps an answer of the old topic out of validation and
    summary. */
module Scenarios {
  import opened Topics
  import opened EmailCheck
  import opened Validation
  import opened SurveySummary
  import opened Form

  /** Sixty characters of feedback, more than the minimum. */
  const LongFeedback: string := seq(60, _ => 'x')

  const AnaLi := FormState("Ana Li", "ana@x.com", Technology, "Python", Number(3),
    "", "", "", "", LongFeedback)

  /** The address `ana@x.com` has the accepted shape, its `@` at index 3. */
  lemma AnaEmailAccepted()
    ensures EmailShape("ana@x.com") && ValidEmail("ana@x.com")
  {
    var s := "ana@x.com";
    assert s[3] == '@' && s[5] == '.';
    assert OnlyAt(s, 3);
    assert CleanIn(s, 0, 3) && CleanIn(s, 4, |s|) && DotIn(s, 5, |s| - 1);
    ValidEmailMeaning(s);
  }

  /** The complete Technology answer raises no error. */
  lemma AnaLiAccepted()
    ensures Validate(AnaLi) == map[]
  {
    AnaEmailAccepted();
    assert |LongFeedback| >= MinFeedbackLength;
    EmptyIffAcceptable(AnaLi);
  }

  /** Its summary reads back with the name, language and years lines in
      place. */
  lemma AnaLiSummary()
    ensures var lines := SplitLines(Summary(AnaLi));
      && |lines| == 7
      && lines[1] == "Full Name: Ana Li"
      && lines[4] == "Favorite Programming Language: Python"
      && lines[5] == "Years of Experience: 3"
  {
    assert NoBreak(LongFeedback);
    assert SingleLineAnswers(AnaLi);
    assert NumberText(Number(3)) == "3";
    SummaryReadsBack(AnaLi);
  }

  const HealthDraft := FormState("", "", Health, "", Empty, "", "Vegan", "", "", "short")

  /** The incomplete Health answer reports the name, the address, the
      exercise frequency and the feedback, but not the diet preference that
      was given, and nothing of the other topics. */
  lemma HealthDraftRejected()
    ensures var e := Validate(HealthDraft);
      && FullName in e && Email in e && ExerciseFrequency in e && Feedback in e
      && DietPreference !in e && SurveyTopic !in e
      && FavoriteLanguage !in e && YearsOfExperience !in e
      && HighestQualification !in e && FieldOfStudy !in e
      && e[Email] == EmailRequired
  {
    TopicKeysFollowTopic(HealthDraft);
    EmailOutcomes(HealthDraft);
  }

  /** Switching from Technology to Health keeps the favorite language in
      its cell, but neither the validator nor the summary looks at it while
      the topic is Health; the extra questions become Health's. */
  method SwitchTopic(form: SurveyForm)
    requires form.Valid()
    modifies form
    ensures form.Valid()
    ensures form.favoriteLanguage == "Python" && form.surveyTopic == Health
    ensures FavoriteLanguage !in Validate(form.Snapshot())
    ensures Validate(form.Snapshot()) == Validate(form.Snapshot().(favoriteLanguage := ""))
    ensures Summary(form.Snapshot()) == Summary(form.Snapshot().(favoriteLanguage := ""))
    ensures form.additionalQuestions == Questions.QuestionsFor(Health)
  {
    form.SetTopic(Technology);
    form.SetField(FavoriteLanguage, "Python");
    form.SetTopic(Health);
    var f := form.Snapshot();
    TopicKeysFollowTopic(f);
    ValidateIgnoresOtherTopics(f, f.(favoriteLanguage := ""));
    SummaryIgnoresOtherTopics(f, f.(favoriteLanguage := ""));
  }

  /** Validating twice without an edit in between stores the same map. */
  method ValidateTwice(form: SurveyForm) returns (first: map<Field, string>, second: map<Field, string>)
    modifies form`errors
    ensures first == second == Validate(form.Snapshot())
  {
    var ok := form.ValidateForm();
    first := form.errors;
    ok := form.ValidateForm();
    second := form.errors;
  }
}
