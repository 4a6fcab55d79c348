/** The text shown when the form is accepted: a header, the always-present
    answers, the two answers of the chosen topic and the feedback, one per
    line, joined by line breaks with none after the last line. */
module SurveySummary {
  import opened Topics
  import opened Validation

  const Header := "Survey Form Summary"

  /** The captions in front of the answers. */
  const FullNameCaption := "Full Name: "
  const EmailCaption := "Email: "
  const TopicCaption := "Survey Topic: "
  const LanguageCaption := "Favorite Programming Language: "
  const YearsCaption := "Years of Experience: "
  const ExerciseCaption := "Exercise Frequency: "
  const DietCaption := "Diet Preference: "
  const QualificationCaption := "Highest Qualification: "
  const StudyCaption := "Field of Study: "
  const FeedbackCaption := "Feedback: "

  /** The decimal digit for `d`. */
  function DigitChar(d: nat): (c: char)
    requires d < 10
    ensures '0' <= c <= '9'
  {
    ('0' as int + d) as char
  }

  /** The decimal numeral of `n`, most significant digit first. */
  function NatToString(n: nat): (s: string)
    ensures |s| > 0
    ensures forall i :: 0 <= i < |s| ==> '0' <= s[i] <= '9'
  {
    if n < 10 then [DigitChar(n)] else NatToString(n / 10) + [DigitChar(n % 10)]
  }

  /** The number a string of decimal digits denotes, most significant
      digit first. */
  function DigitsValue(s: string): int
    decreases |s|
  {
    if s == [] then 0 else DigitsValue(s[..|s| - 1]) * 10 + (s[|s| - 1] as int - '0' as int)
  }

  /** How the text of the years line reads back as a number input: nothing
      for the empty text, else an optional minus sign and digits. */
  function ReadNumber(s: string): NumberInput {
    if s == [] then Empty
    else if s[0] == '-' then Number(-DigitsValue(s[1..]))
    else Number(DigitsValue(s))
  }

  /** How a number input's value is written into the text. */
  function NumberText(y: NumberInput): (s: string)
    ensures forall i :: 0 <= i < |s| ==> s[i] == '-' || '0' <= s[i] <= '9'
  {
    match y
    case Empty => ""
    case Number(n) => if n < 0 then "-" + NatToString(-n) else NatToString(n)
  }

  /** The labelled lines of the chosen topic's answers. */
  function TopicLines(f: FormState): seq<string> {
    if f.surveyTopic == Technology then
      [LanguageCaption + f.favoriteLanguage,
       YearsCaption + NumberText(f.yearsOfExperience)]
    else if f.surveyTopic == Health then
      [ExerciseCaption + f.exerciseFrequency,
       DietCaption + f.dietPreference]
    else if f.surveyTopic == Education then
      [QualificationCaption + f.highestQualification,
       StudyCaption + f.fieldOfStudy]
    else
      []
  }

  /** Every line of the summary but the last. */
  function LeadingLines(f: FormState): seq<string> {
    [Header, FullNameCaption + f.fullName, EmailCaption + f.email, TopicCaption + f.surveyTopic]
      + TopicLines(f)
  }

  function FeedbackLine(f: FormState): string {
    FeedbackCaption + f.feedback
  }

  /** Each line followed by a line break. */
  function Unlines(lines: seq<string>): string {
    if lines == [] then "" else lines[0] + "\n" + Unlines(lines[1..])
  }

  /** The summary text: it opens with the header line and closes with the
      feedback line, with no line break after it. */
  function Summary(f: FormState): (text: string)
    ensures Header + "\n" <= text
    ensures |FeedbackLine(f)| <= |text| && text[|text| - |FeedbackLine(f)|..] == FeedbackLine(f)
  {
    var lead := Unlines(LeadingLines(f));
    assert lead == Header + "\n" + Unlines(LeadingLines(f)[1..]);
    lead + FeedbackLine(f)
  }

  /** The inverse of joining with line breaks: the pieces between them. */
  function SplitLines(s: string): (lines: seq<string>)
    ensures |lines| > 0
  {
    if s == [] then [""]
    else
      var rest := SplitLines(s[1..]);
      if s[0] == '\n' then [""] + rest else [[s[0]] + rest[0]] + rest[1..]
  }

  predicate NoBreak(s: string) {
    forall i :: 0 <= i < |s| ==> s[i] != '\n'
  }

  /** No answer that appears in the summary holds a line break. */
  predicate SingleLineAnswers(f: FormState) {
    && NoBreak(f.fullName) && NoBreak(f.email) && NoBreak(f.surveyTopic)
    && NoBreak(f.favoriteLanguage) && NoBreak(f.exerciseFrequency) && NoBreak(f.dietPreference)
    && NoBreak(f.highestQualification) && NoBreak(f.fieldOfStudy) && NoBreak(f.feedback)
  }

  // ---------------------------------------------------------------------
  // Lemmas

  /** The numeral of `n` denotes `n`. */
  lemma {:induction false} NatToStringValue(n: nat)
    ensures DigitsValue(NatToString(n)) == n
  {
    if n >= 10 {
      var s := NatToString(n);
      assert s[..|s| - 1] == NatToString(n / 10);
      NatToStringValue(n / 10);
    }
  }

  /** The years text reads back as the value of the number input: empty
      for no value, and otherwise the integer itself, sign included. */
  lemma NumberTextReadsBack(y: NumberInput)
    ensures ReadNumber(NumberText(y)) == y
  {
    if y.Number? {
      var n := y.value;
      if n < 0 {
        NatToStringValue(-n);
        assert NumberText(y)[1..] == NatToString(-n);
      } else {
        NatToStringValue(n);
      }
    }
  }

  /** Appending one more line to `Unlines`, as the summary is built. */
  lemma {:induction false} UnlinesSnoc(lines: seq<string>, line: string)
    ensures Unlines(lines + [line]) == Unlines(lines) + line + "\n"
    decreases |lines|
  {
    if lines == [] {
      assert [] + [line] == [line];
    } else {
      assert (lines + [line])[1..] == lines[1..] + [line];
      UnlinesSnoc(lines[1..], line);
    }
  }

  /** A line without a break reads back as that single line. */
  lemma {:induction false} SplitSingle(s: string)
    requires NoBreak(s)
    ensures SplitLines(s) == [s]
    decreases |s|
  {
    if s != [] {
      SplitSingle(s[1..]);
      assert [s[0]] + s[1..] == s;
    }
  }

  /** A break-free line followed by a break is split off as the first line. */
  lemma {:induction false} SplitFirst(line: string, rest: string)
    requires NoBreak(line)
    ensures SplitLines(line + "\n" + rest) == [line] + SplitLines(rest)
    decreases |line|
  {
    var s := line + "\n" + rest;
    if line == [] {
      assert s == "\n" + rest && s[1..] == rest;
    } else {
      assert s[1..] == line[1..] + "\n" + rest;
      SplitFirst(line[1..], rest);
      assert [line[0]] + line[1..] == line;
    }
  }

  /** Splitting undoes joining, when no line holds a break. */
  lemma {:induction false} SplitUnlines(lines: seq<string>, last: string)
    requires forall i :: 0 <= i < |lines| ==> NoBreak(lines[i])
    requires NoBreak(last)
    ensures SplitLines(Unlines(lines) + last) == lines + [last]
    decreases |lines|
  {
    if lines == [] {
      assert Unlines(lines) + last == last;
      SplitSingle(last);
    } else {
      var rest := Unlines(lines[1..]) + last;
      assert Unlines(lines) + last == lines[0] + "\n" + rest;
      SplitFirst(lines[0], rest);
      SplitUnlines(lines[1..], last);
      assert lines == [lines[0]] + lines[1..];
    }
  }

  lemma NoBreakConcat(a: string, b: string)
    requires NoBreak(a) && NoBreak(b)
    ensures NoBreak(a + b)
  {
    assert forall i :: |a| <= i < |a + b| ==> (a + b)[i] == b[i - |a|];
  }

  /** The summary reads back, line by line, as: the header; the full name,
      e-mail and topic; the two lines of the chosen topic (none for any
      other topic); the feedback, with no line break after it. */
  lemma SummaryReadsBack(f: FormState)
    requires SingleLineAnswers(f)
    ensures var lines := SplitLines(Summary(f));
      && |lines| == (if IsKnown(f.surveyTopic) then 7 else 5)
      && lines[0] == Header
      && lines[1] == FullNameCaption + f.fullName
      && lines[2] == EmailCaption + f.email
      && lines[3] == TopicCaption + f.surveyTopic
      && lines[4..|lines| - 1] == TopicLines(f)
      && lines[|lines| - 1] == FeedbackCaption + f.feedback
  {
    var lead := LeadingLines(f);
    NoBreakConcat(FullNameCaption, f.fullName);
    NoBreakConcat(EmailCaption, f.email);
    NoBreakConcat(TopicCaption, f.surveyTopic);
    NoBreakConcat(LanguageCaption, f.favoriteLanguage);
    NoBreakConcat(YearsCaption, NumberText(f.yearsOfExperience));
    NoBreakConcat(ExerciseCaption, f.exerciseFrequency);
    NoBreakConcat(DietCaption, f.dietPreference);
    NoBreakConcat(QualificationCaption, f.highestQualification);
    NoBreakConcat(StudyCaption, f.fieldOfStudy);
    NoBreakConcat(FeedbackCaption, f.feedback);
    SplitUnlines(lead, FeedbackLine(f));
  }

  /** Answers left over from another topic never reach the summary. */
  lemma SummaryIgnoresOtherTopics(f: FormState, g: FormState)
    requires f.fullName == g.fullName && f.email == g.email && f.feedback == g.feedback
    requires f.surveyTopic == g.surveyTopic
    requires f.surveyTopic == Technology ==>
      f.favoriteLanguage == g.favoriteLanguage && f.yearsOfExperience == g.yearsOfExperience
    requires f.surveyTopic == Health ==>
      f.exerciseFrequency == g.exerciseFrequency && f.dietPreference == g.dietPreference
    requires f.surveyTopic == Education ==>
      f.highestQualification == g.highestQualification && f.fieldOfStudy == g.fieldOfStudy
    ensures Summary(f) == Summary(g)
  {
  }
}
