/** The deterministic part of the script agent: the prompt fields taken from the vision
    analysis, and turning the model's text answer into the explainer script. */
module ScriptAgent {
  import opened Wrappers
  import opened ResponseCleanup
  import opened VisionAgent

  /** The four values substituted into the script prompt. */
  datatype PromptFields = PromptFields(subject: string, topic: string, context: string, question: string)

  /** One narrated section of the explainer. */
  datatype Section = Section(id: int, narration: string, imagePrompt: string)

  /** The script dictionary `generate_script` returns. */
  datatype Script = Script(title: string, intro: string, sections: seq<Section>, outro: string)

  const DefaultIntro: string := "Let me explain this for you."
  const DefaultOutro: string := "I hope that helps!"
  const DefaultNarration: string := "Let me walk you through this."

  /** The prompt fields: each key of the vision analysis that is present is used as it is;
      a missing key falls back to its default. */
  function PromptFieldsOf(v: Analysis): (f: PromptFields)
    ensures v.subject.Some? ==> f.subject == v.subject.value
    ensures v.subject.None? ==> f.subject == "General"
    ensures v.topic.Some? ==> f.topic == v.topic.value
    ensures v.topic.None? ==> f.topic == "the topic"
    ensures v.context.Some? ==> f.context == v.context.value
    ensures v.context.None? ==> f.context == ""
    ensures v.question.Some? ==> f.question == v.question.value
    ensures v.question.None? ==> f.question == ""
  {
    PromptFields(
      v.subject.GetOr("General"),
      v.topic.GetOr("the topic"),
      v.context.GetOr(""),
      v.question.GetOr(""))
  }

  const ImagePromptHead: string := "Educational diagram about "
  const ImagePromptTail: string := ", clean white background, colorful, labeled"

  /** The image prompt of the fallback section: the topic, verbatim, between a fixed head
      and a fixed tail. */
  function FallbackImagePrompt(topic: string): (p: string)
    ensures |p| == |ImagePromptHead| + |topic| + |ImagePromptTail|
    ensures p[..|ImagePromptHead|] == ImagePromptHead
    ensures p[|ImagePromptHead|..|ImagePromptHead| + |topic|] == topic
    ensures p[|ImagePromptHead| + |topic|..] == ImagePromptTail
  {
    ImagePromptHead + topic + ImagePromptTail
  }

  /** The script used when the cleaned answer is not JSON: one section, numbered 1, titled
      and narrated from the vision analysis when it has those keys, with fixed intro and
      outro. */
  function FallbackScript(v: Analysis): (s: Script)
    ensures |s.sections| == 1 && s.sections[0].id == 1
    ensures s.intro == DefaultIntro && s.outro == DefaultOutro
    ensures v.topic.Some? ==> s.title == v.topic.value
    ensures v.context.Some? ==> s.sections[0].narration == v.context.value
  {
    Script(
      v.topic.GetOr("Explainer"),
      DefaultIntro,
      [Section(1, v.context.GetOr(DefaultNarration), FallbackImagePrompt(v.topic.GetOr("the topic")))],
      DefaultOutro)
  }

  /** `generate_script` after the model has answered `answer`; `parse` stands for
      `json.loads` applied to the cleaned answer. A decoded object is returned as it is; a
      decoded value that is not an object makes the logging call that reads its keys raise;
      text that is not JSON gives the fallback script: exactly one section, numbered 1,
      built from the vision analysis with its own defaults for missing keys. */
  function GenerateScript(answer: string, v: Analysis, parse: string -> JsonResult<Decoded<Script>>): (o: Outcome<Script>)
    ensures parse(Clean(answer)).Parsed? && parse(Clean(answer)).value.JsonObject? ==>
      o == Returns(parse(Clean(answer)).value.members)
    ensures parse(Clean(answer)) == Parsed(NotAnObject) ==> o == Raises
    ensures parse(Clean(answer)).Invalid? ==>
      o.Returns? && |o.value.sections| == 1 && o.value.sections[0].id == 1
      && o.value.title == (if v.topic.Some? then v.topic.value else "Explainer")
      && o.value.sections[0].narration == (if v.context.Some? then v.context.value else DefaultNarration)
      && o.value.sections[0].imagePrompt
         == "Educational diagram about " + (if v.topic.Some? then v.topic.value else "the topic")
            + ", clean white background, colorful, labeled"
      && o.value.intro == DefaultIntro && o.value.outro == DefaultOutro
  {
    var raw := Clean(answer);
    match parse(raw)
    case Parsed(JsonObject(script)) => Returns(script)
    case Parsed(NotAnObject) => Raises
    case Invalid => Returns(FallbackScript(v))
  }

  /** When both agents fall back, the vision fallback fills every prompt field, so no
      prompt default is used, and the fallback script is titled "Unknown" and narrates the
      cleaned vision answer. */
  lemma BothFallBack(
    visionAnswer: string, question: string, parseAnalysis: string -> JsonResult<Decoded<Analysis>>,
    scriptAnswer: string, parseScript: string -> JsonResult<Decoded<Script>>)
    requires parseAnalysis(Clean(visionAnswer)).Invalid?
    requires parseScript(Clean(scriptAnswer)).Invalid?
    ensures var v := Analyze(visionAnswer, question, parseAnalysis).value;
      PromptFieldsOf(v) == PromptFields("General", "Unknown", Clean(visionAnswer), question)
    ensures var s := GenerateScript(scriptAnswer, Analyze(visionAnswer, question, parseAnalysis).value, parseScript).value;
      s.title == "Unknown" && s.sections == [Section(1, Clean(visionAnswer), FallbackImagePrompt("Unknown"))]
  {
  }
}
