/** The mock "external API" of additional questions: a fixed table from
    survey topic to a two-item list of questions. */
module Questions {
  import opened Topics

  datatype Question = Question(id: int, question: string)

  /** The list `fetchAdditionalQuestions` stores for `topic`. */
  function QuestionsFor(topic: string): (qs: seq<Question>)
    ensures IsKnown(topic) ==> |qs| == 2
    ensures !IsKnown(topic) ==> qs == []
    ensures forall n :: 0 <= n < |qs| ==> qs[n].id == n + 1
  {
    if topic == Technology then
      [Question(1, "Favorite IDE?"), Question(2, "Open source contributions?")]
    else if topic == Health then
      [Question(1, "Daily water intake?"), Question(2, "Hours of sleep per night?")]
    else if topic == Education then
      [Question(1, "Current GPA?"), Question(2, "Extracurricular activities?")]
    else
      []
  }

  /** The lists the table can produce: one per known topic, or none. */
  predicate IsTableEntry(qs: seq<Question>) {
    qs == [] || qs == QuestionsFor(Technology) || qs == QuestionsFor(Health)
      || qs == QuestionsFor(Education)
  }

  /** Every topic gets an entry of the table, and the three known topics
      get three different lists. */
  lemma QuestionsDistinguishTopics(a: string, b: string)
    ensures IsTableEntry(QuestionsFor(a))
    ensures IsKnown(a) && IsKnown(b) && a != b ==> QuestionsFor(a) != QuestionsFor(b)
  {
    if IsKnown(a) && IsKnown(b) && a != b {
      assert QuestionsFor(a)[0].question != QuestionsFor(b)[0].question;
    }
  }
}
