# Survey form rule layer, in Dafny

This project models the rule layer of a React survey form (`src/App.js`):
the state cells of the form, the validator `validateForm` with its e-mail check
`validateEmail`, the summary text that `handleSubmit` builds on success, and
the table of additional questions that `fetchAdditionalQuestions` applies
whenever a non-empty survey topic is chosen. Rendering, browser I/O and React
scheduling are stripped away.

Modules:

- `Topics` (`topics.dfy`): the three topic strings. The topic is kept as the
  select's string value, so `""` means "no topic chosen" and any other string
  falls to the default branches.
- `EmailCheck` (`email.dfy`): the pattern `^[^\s@]+@[^\s@]+\.[^\s@]+$` tested
  on the lower-cased address. The pattern has three forms, proved to agree:
  - `ValidEmail` runs an automaton (`Scan`) over the lower-cased text;
  - `PatternMatch` reads the pattern literally (three non-empty runs of
    `[^\s@]` joined by `@` and `.`);
  - `EmailShape` is the plain-words reading: exactly one `@`, a non-empty
    clean local part, and a clean domain with a `.` that is neither its first
    nor its last character.
- `Questions` (`questions.dfy`): the topic-to-questions table.
- `Validation` (`validation.dfy`):
  - `FormState` is a snapshot of all inputs;
  - `Violates` and `Message` are the rule table;
  - `Validate` is the error map as a function of the snapshot.
- `SurveySummary` (`summary.dfy`): the summary text as a function of the
  snapshot, and a line splitter that reads it back.
- `Form` (`form.dfy`): the class `SurveyForm`, one field per state cell.
  - The change handlers are `SetField`, `SetYears` and `SetTopic`. `SetTopic`
    also runs the effect that loads the questions.
  - `ValidateForm` builds the error map step by step, as the source does. It
    is proved equal to `Validate`.
  - `Submit` validates. On success it builds the summary by appending, and
    that text is proved equal to `Summary`.
- `Scenarios` (`scenarios.dfy`): worked cases.
  - A complete Technology answer is accepted.
  - An incomplete Health answer is rejected.
  - A topic switch keeps the old topic's answer in its cell, but the validator
    and the summary ignore it.
  - Validating twice gives the same map.

Two places where the model keeps the code's behaviour, which is looser than a reader might expect:

- A full name is flagged only when it is the empty string. A name made only
  of blanks is accepted, because the test at `src/App.js:60` is
  JavaScript truthiness.
- `yearsOfExperience` is empty or an integer. Whether non-numeric text
  counts as an error is not modelled; see below.

## Model

| member | source | states |
|---|---|---|
| EmailCheck.IsSpace | src/App.js:95 | the `\s` class: among ASCII characters exactly the space and tab, line feed, vertical tab, form feed and carriage return; never `@` or `.` |
| EmailCheck.ToLower | src/App.js:96 | the model's lower-casing of the address, which maps the letters A-Z one character at a time: it keeps the length and maps each character separately |
| EmailCheck.ValidEmail | src/App.js:94-97 | `validateEmail` runs the pattern automaton over the lower-cased address; an accepted address has at least five characters, as `a@b.c` |
| EmailCheck.ShapeLength | src/App.js:95 | every address of the accepted shape has at least five characters |
| EmailCheck.ValidEmailMeaning | src/App.js:94-97 | `validateEmail` accepts exactly the addresses that have one `@`, a non-empty local part without whitespace or `@`, and a domain without whitespace or `@` holding a `.` that is neither its first nor its last character; the same verdict as the literal reading of the pattern |
| EmailCheck.StepLanguage | src/App.js:95 | each state of the pattern automaton accepts exactly the suffixes described for it, so one step consumes one character of such a suffix |
| EmailCheck.StartStep | src/App.js:95 | from the initial state, the first character must be in `[^\s@]`, and the rest must complete the local part, the `@` and the domain |
| EmailCheck.LocalStep | src/App.js:95 | inside the local part, the next character is either the `@` or one more character of `[^\s@]` |
| EmailCheck.ScanLanguage | src/App.js:95 | running the automaton over a text ends in the accepting state exactly when the text is in the language of the starting state |
| EmailCheck.ScanIgnoresCase | src/App.js:96 | lower-casing the text never changes the state the automaton ends in |
| EmailCheck.PatternIffShape | src/App.js:95 | the literal reading of `^[^\s@]+@[^\s@]+\.[^\s@]+$` and the plain-words shape accept the same strings |
| EmailCheck.LowercaseIrrelevant | src/App.js:96 | lower-casing before the test never changes the verdict, neither of the pattern nor of `validateEmail` |
| EmailCheck.NoAtRejected | src/App.js:95 | an address without `@` is rejected |
| EmailCheck.NoDotAfterAtRejected | src/App.js:95 | an address with no `.` after an `@` is rejected |
| Questions.QuestionsFor | src/App.js:24-48 | each of the three topics gets a two-item list numbered from 1; any other topic gets the empty list |
| Questions.QuestionsDistinguishTopics | src/App.js:24-48 | every list the lookup produces is an entry of the table, and the three topics get three different lists |
| Validation.Violates | src/App.js:60-87 | the rule of each field; a rule can fail only for the always-checked fields and the two fields of the chosen topic |
| Validation.Message | src/App.js:60-87 | the message of each field is non-empty, and the e-mail message is "Email is required" exactly when the address is empty |
| Validation.MessageNamesField | src/App.js:60-87 | no two fields share a message, so a message tells which field it belongs to |
| Validation.Validate | src/App.js:57-91 | `fullName`, `surveyTopic` are reported exactly when empty; `email` exactly when the address lacks the accepted shape (the empty address included); `feedback` exactly when shorter than 50 characters |
| Validation.ReportedIsValidate | src/App.js:57-91 | any map that reports exactly the failing rules of all ten fields, each with its message, is the validator's map |
| Validation.EmptyIffAcceptable | src/App.js:89-90 | the map is empty, so `validateForm` returns true, exactly when the name, topic and the chosen topic's answers are given, the address has the accepted shape and the feedback has at least 50 characters |
| Validation.KeysWithinTopic | src/App.js:68-83 | only the always-checked fields and the chosen topic's two fields can be reported |
| Validation.TopicKeysFollowTopic | src/App.js:68-83 | each topic key is reported exactly when its topic is chosen and its answer is missing (years: empty or at most 0); with no topic, `surveyTopic` is reported and no topic key |
| Validation.EmailOutcomes | src/App.js:61-65 | an empty address gets "Email is required"; a non-empty one that fails the check gets "Email is not valid"; an accepted one gets no key |
| Validation.FeedbackBoundary | src/App.js:85-87 | 49 characters of feedback are reported with the feedback message, 50 are not |
| Validation.ValidateIgnoresOtherTopics | src/App.js:57-91 | answers of a topic other than the chosen one never change the error map |
| SurveySummary.NatToString | src/App.js:113 | the decimal numeral of a natural number is non-empty and made of digits |
| SurveySummary.NatToStringValue | src/App.js:113 | the numeral of `n`, read back digit by digit, denotes `n` |
| SurveySummary.NumberText | src/App.js:113 | the years text holds only digits and a minus sign |
| SurveySummary.NumberTextReadsBack | src/App.js:113 | the years text reads back as the value of the number input: empty for no value, otherwise the integer itself with its sign |
| SurveySummary.Summary | src/App.js:105-127 | the message opens with the header line `Survey Form Summary` and a break, and closes with the feedback line, with no break after it |
| SurveySummary.SplitUnlines | src/App.js:105-127 | splitting at line breaks recovers the lines that were joined, when no line holds a break |
| SurveySummary.SummaryReadsBack | src/App.js:103-127 | the summary reads back as the header, then the name, e-mail and topic lines, then the two lines of the chosen topic (none for any other topic), then the feedback line with no break after it: 7 lines for a known topic, 5 otherwise |
| SurveySummary.SummaryIgnoresOtherTopics | src/App.js:110-125 | answers of a topic other than the chosen one never reach the summary |
| Form.SurveyForm.constructor | src/App.js:6-21 | every state cell starts empty, with no questions and no errors |
| Form.SurveyForm.SetTopic | src/App.js:50-54 | the topic changes and nothing else; a non-empty topic replaces the questions with its list from the table; the empty topic leaves them as they were |
| Form.SurveyForm.SetField | src/App.js:149-234 | the change handler of a text or select input changes that one cell (and, for the topic, the questions, as `SetTopic`) |
| Form.SurveyForm.SetYears | src/App.js:182 | the number input changes only the years cell |
| Form.SurveyForm.CheckIdentity | src/App.js:60-66 | the checks of name, address and topic report exactly the failing ones among these three fields, with their messages |
| Form.SurveyForm.CheckTechnology | src/App.js:68-73 | the Technology block adds exactly the failing rules of its two fields to the map |
| Form.SurveyForm.CheckHealth | src/App.js:75-78 | the Health block adds exactly the failing rules of its two fields to the map |
| Form.SurveyForm.CheckEducation | src/App.js:80-83 | the Education block adds exactly the failing rules of its two fields to the map |
| Form.SurveyForm.CollectErrors | src/App.js:58-87 | the map built step by step reports exactly the failing rules of all ten fields, with their messages |
| Form.SurveyForm.ValidateForm | src/App.js:57-91 | the stored map is replaced wholesale by the validator's map of the current answers, and the result is true exactly when that map is empty |
| Form.SurveyForm.BuildLeadingLines | src/App.js:105-125 | the header, name, e-mail and topic lines and the chosen topic's lines, appended one at a time, are the summary's leading lines, each followed by a break |
| Form.SurveyForm.BuildSummary | src/App.js:105-127 | the text appended piece by piece is the summary of the current answers |
| Form.SurveyForm.Submit | src/App.js:100-135 | no answer and no question changes; the stored errors are the validator's map; the outcome is the summary exactly when that map is empty, a rejection otherwise |
| Form.AppendLine | src/App.js:106-121 | appending a caption, an answer and a break extends the joined lines by one line |
| Scenarios.AnaEmailAccepted | src/App.js:94-97 | `ana@x.com` is accepted |
| Scenarios.AnaLiAccepted | src/App.js:57-91 | a complete Technology answer raises no error |
| Scenarios.AnaLiSummary | src/App.js:103-127 | its summary has 7 lines, with the name, language and years lines in place |
| Scenarios.HealthDraftRejected | src/App.js:57-91 | an incomplete Health answer reports name, address, exercise frequency and feedback, but not the given diet preference, and no key of another topic |
| Scenarios.SwitchTopic | src/App.js:50-54 | after switching from Technology to Health, the favorite language stays in its cell but changes neither the error map nor the summary, and the questions are Health's |
| Scenarios.ValidateTwice | src/App.js:57-91 | validating twice without an edit stores the same map |

## Left out

- The markup and Bootstrap classes, and which inputs are shown for each topic: presentation only.
- `alert(message)` and `window.scrollTo(0, 0)`: browser output. The model returns the summary text or a rejection instead.
- `e.preventDefault()`: a browser event detail with no effect on the rules.
- React's scheduling of state updates and of the effect, and the `async` keyword. The topic change and the question lookup happen in one step (`SetTopic`). The effect lists the topic as its only dependency, so it does not run again when the topic is set to its current value. `SetTopic` does run the lookup again in that case. It stores the same list again, which changes nothing.
- JavaScript number coercion of the years text. The input holds text; the model holds either nothing or an integer.
  - Fractions such as `0.5` are not modelled. So is text that coerces to `NaN`, which the source does not flag.
- SurveySummary.NumberText: the summary shows the years as the typed text. The model writes the canonical decimal numeral, so typed leading zeros or a leading `+` are not reproduced.
- Lower-casing beyond the letters A-Z. `toLowerCase` maps every Unicode letter, and some letters map to more than one character. The model maps A-Z only.
- `\s` is the WhiteSpace and LineTerminator set of ECMA-262 with a fixed list of code points. How that set changes between Unicode versions is not modelled.
- `feedback.length` counts UTF-16 code units. The model counts characters.
- The option lists of the select inputs. The validator only asks that each answer is non-empty.
- SurveySummary.SummaryReadsBack: the line-by-line reading assumes that no answer holds a line break. The summary text itself is defined and proved equal to what `handleSubmit` builds for every answer.
