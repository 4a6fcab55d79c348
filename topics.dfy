/** The survey topics offered by the topic select. The form keeps the topic
    as the select's string value; the empty string means that no topic has
    been chosen, and any other string falls to the default branches. */
module Topics {

  const Technology: string := "Technology"
  const Health: string := "Health"
  const Education: string := "Education"

  /** One of the three topics that bring their own questions. */
  predicate IsKnown(topic: string) {
    topic == Technology || topic == Health || topic == Education
  }
}
