/** The deterministic part of the vision agent: turning the model's text answer into the
    analysis record. The model call itself is outside the model; its answer is a parameter. */
module VisionAgent {
  import opened Wrappers
  import opened PyStr
  import opened ResponseCleanup

  /** The dictionary `analyze_photo` returns. Each key the prompt asks for may be absent from
      a decoded answer, so each is optional. */
  datatype Analysis = Analysis(
    subject: Option<string>,
    topic: Option<string>,
    context: Option<string>,
    question: Option<string>)

  /** The record used when the cleaned answer is not JSON: it has every key, with the
      cleaned answer as context and the caller's question. */
  function FallbackAnalysis(cleaned: string, question: string): (a: Analysis)
    ensures a.subject.Some? && a.topic.Some? && a.context.Some? && a.question.Some?
    ensures a.context.value == cleaned && a.question.value == question
  {
    Analysis(Some("General"), Some("Unknown"), Some(cleaned), Some(question))
  }

  /** `analyze_photo` after the model has answered `answer` to a photo and `question`;
      `parse` stands for `json.loads` applied to the cleaned answer. A decoded object is
      returned as it is; a decoded value that is not an object makes the logging call that
      reads its keys raise; text that is not JSON gives the fallback, which carries the
      cleaned answer (not the raw one) as context and the caller's own question. */
  function Analyze(answer: string, question: string, parse: string -> JsonResult<Decoded<Analysis>>): (a: Outcome<Analysis>)
    ensures parse(Clean(answer)).Parsed? && parse(Clean(answer)).value.JsonObject? ==>
      a == Returns(parse(Clean(answer)).value.members)
    ensures parse(Clean(answer)) == Parsed(NotAnObject) ==> a == Raises
    ensures parse(Clean(answer)).Invalid? ==>
      a.Returns? && a.value.subject == Some("General") && a.value.topic == Some("Unknown")
      && a.value.context == Some(Clean(answer)) && a.value.question == Some(question)
  {
    var raw := Clean(answer);
    match parse(raw)
    case Parsed(JsonObject(v)) => Returns(v)
    case Parsed(NotAnObject) => Raises
    case Invalid => Returns(FallbackAnalysis(raw, question))
  }

  /** The context of a fallback record is already clean: cleaning it again changes nothing
      (and, like every cleaned text, it has no surrounding whitespace). */
  lemma FallbackContextIsClean(answer: string, question: string, parse: string -> JsonResult<Decoded<Analysis>>)
    requires parse(Clean(answer)).Invalid?
    ensures var a := Analyze(answer, question, parse);
      a.Returns? && a.value.context.Some? && Clean(a.value.context.value) == a.value.context.value
  {
    CleanIdempotent(answer);
  }
}
