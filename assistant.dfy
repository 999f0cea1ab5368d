/** `EnglishAssistant` of services.py as far as the endpoints depend on it:
    the `question` it remembers, the system prompt list that
    `process_request` assembles, and the exercise text that the `/process`
    endpoints of main.py and mainf.py build from the model's translation.
    The language model itself is a function parameter. */
module Assistant {
  import opened Wrappers
  import opened Text

  /** The system prompt's first element: adjacent f-strings, fused without separators. */
  function Intro(nativeLang: string): string
  {
    IntroHead + "Give your explanations in the language: " + nativeLang + "." + IntroTail
  }

  const IntroHead: string :=
    "You are an English learning assistant."
    + "The transcript is not perfect and may contain errors."
    + "You need to answer how correct the answer is."
    + "Answer as briefly as possible."
  const IntroTail: string := "The words may be consonant then recognition will not understand it. But this is not a mistake."
  const AlsoHeader: string := "Also provide explanations for:"
  const GrammarLine: string := "- Grammar and tense usage"
  const PronunciationLine: string := "- Pronunciation tips (in IPA notation)"
  const AlternativesLine: string := "- Alternative translation options or phrasings"

  /** `if explanations:` — a missing form field and an empty list are both false. */
  predicate Truthy(explanations: Option<seq<string>>)
  {
    explanations.Some? && explanations.value != []
  }

  predicate Asked(explanations: Option<seq<string>>, key: string)
  {
    explanations.Some? && key in explanations.value
  }

  function LineIf(b: bool, line: string): seq<string>
  {
    if b then [line] else []
  }

  /** `system_part` as `process_request` builds it. */
  function SystemPart(nativeLang: string, explanations: Option<seq<string>>): seq<string>
  {
    [Intro(nativeLang)]
    + if !Truthy(explanations) then []
      else [AlsoHeader]
           + LineIf(Asked(explanations, "grammar"), GrammarLine)
           + LineIf(Asked(explanations, "pronunciation"), PronunciationLine)
           + LineIf(Asked(explanations, "alternatives"), AlternativesLine)
  }

  /** The prompt list: the introduction first; the header and explanation
      lines only when some explanation was asked for; each explanation line
      present exactly when its key was in the list, and no line twice. */
  lemma SystemPartShape(nativeLang: string, explanations: Option<seq<string>>)
    ensures var r := SystemPart(nativeLang, explanations);
      && r[0] == Intro(nativeLang)
      && (|r| == 1 <==> !Truthy(explanations))
      && (|r| > 1 ==> r[1] == AlsoHeader)
      && |r| == 1 + (if Truthy(explanations)
                     then 1 + |LineIf(Asked(explanations, "grammar"), GrammarLine)|
                            + |LineIf(Asked(explanations, "pronunciation"), PronunciationLine)|
                            + |LineIf(Asked(explanations, "alternatives"), AlternativesLine)|
                     else 0)
      && (GrammarLine in r <==> Asked(explanations, "grammar"))
      && (PronunciationLine in r <==> Asked(explanations, "pronunciation"))
      && (AlternativesLine in r <==> Asked(explanations, "alternatives"))
      && (forall i, j :: 0 <= i < j < |r| ==> r[i] != r[j])
  {
    var r := SystemPart(nativeLang, explanations);
    assert |Intro(nativeLang)| > 100;
    assert |AlsoHeader| == 30 && |GrammarLine| == 25 && |PronunciationLine| == 38 && |AlternativesLine| == 46;
    if Truthy(explanations) {
      assert Asked(explanations, "grammar") ==> "grammar" in explanations.value;
    }
  }

  /** The explanation lines come in the fixed order grammar, pronunciation,
      alternatives, whatever the order of the keys asked for. */
  lemma SystemPartOrder(nativeLang: string, explanations: Option<seq<string>>)
    ensures var r := SystemPart(nativeLang, explanations);
      && (forall i, j :: 0 <= i < j < |r| && r[j] == GrammarLine ==>
            r[i] != PronunciationLine && r[i] != AlternativesLine)
      && (forall i, j :: 0 <= i < j < |r| && r[j] == PronunciationLine ==> r[i] != AlternativesLine)
  {
    assert |Intro(nativeLang)| > 100;
    assert |AlsoHeader| == 30 && |GrammarLine| == 25 && |PronunciationLine| == 38 && |AlternativesLine| == 46;
  }

  /** What the model is asked in `process_request`. */
  datatype Prompt = Prompt(system: seq<string>, assistant: string, user: string)

  class EnglishAssistant {
    /** The last exercise text set by `/process`, replayed as the assistant turn. */
    var question: string

    /** The constructor once the model file loaded. */
    constructor ()
      ensures question == ""
    {
      question := "";
    }

    /** `process_request`: asks the model with the system list, the current
        question and the user's text, and returns the reply stripped. */
    method ProcessRequest(text: string, nativeLang: string, explanations: Option<seq<string>>,
                          model: Prompt -> string) returns (reply: string)
      ensures reply == Strip(model(Prompt(SystemPart(nativeLang, explanations), question, text)))
    {
      var systemPart := SystemPart(nativeLang, explanations);
      reply := Strip(model(Prompt(systemPart, question, text)));
    }
  }

  /** The instruction prefixes of `/process`, keyed by native language. */
  const TranslationPrefix: map<string, string> := map[
    "Russian" := "переведи на английский следующую фразу: ",
    "Ukrainian" := "переклади англійською наступну фразу: ",
    "French" := "traduisez la phrase suivante en anglais: "]

  const QuestionPrefix: map<string, string> := map[
    "Russian" := "дай свой ответ на следующий вопрос: ",
    "Ukrainian" := "дай свою відповідь на наступне запитання: ",
    "French" := "donnez votre réponse à la question suivante: "]

  /** The `/process` result text from the model's reply `content`; `None`
      where the dictionary lookup raises KeyError. */
  function ExerciseText(interactionType: string, nativeLang: string, content: string): Option<string>
  {
    if interactionType == "translation" then
      if nativeLang in TranslationPrefix then Some(TranslationPrefix[nativeLang] + Strip(content)) else None
    else
      if nativeLang in QuestionPrefix then Some(QuestionPrefix[nativeLang] + Strip(content) + "?") else None
  }

  /** Both prefix tables cover exactly the three supported languages. */
  lemma PrefixKeys()
    ensures TranslationPrefix.Keys == {"Russian", "Ukrainian", "French"}
    ensures QuestionPrefix.Keys == {"Russian", "Ukrainian", "French"}
  {
  }

  /** The exercise text exists exactly for the three known languages. */
  lemma ExerciseTextDefined(interactionType: string, nativeLang: string, content: string)
    ensures ExerciseText(interactionType, nativeLang, content).Some?
        <==> nativeLang in {"Russian", "Ukrainian", "French"}
  {
    PrefixKeys();
  }

  /** A translation exercise is the language's instruction followed by the
      reply with its surrounding whitespace removed. */
  lemma TranslationTextShape(nativeLang: string, content: string)
    requires nativeLang in TranslationPrefix
    ensures var r := ExerciseText("translation", nativeLang, content);
      var prefix := TranslationPrefix[nativeLang];
      && r.Some? && |prefix| <= |r.value| && r.value[..|prefix|] == prefix
      && r.value[|prefix|..] == Strip(content)
  {
    Framed(TranslationPrefix[nativeLang], Strip(content), "");
  }

  /** A question exercise is the language's instruction, the stripped reply
      and an added "?". */
  lemma QuestionTextShape(interactionType: string, nativeLang: string, content: string)
    requires interactionType != "translation" && nativeLang in QuestionPrefix
    ensures var r := ExerciseText(interactionType, nativeLang, content);
      var prefix := QuestionPrefix[nativeLang];
      && r.Some? && |prefix| < |r.value| && r.value[..|prefix|] == prefix
      && r.value[|prefix|..|r.value| - 1] == Strip(content)
      && r.value[|r.value| - 1] == '?'
  {
    Framed(QuestionPrefix[nativeLang], Strip(content), "?");
  }

  lemma Framed(prefix: string, body: string, suffix: string)
    ensures var r := prefix + body + suffix;
      |prefix| + |suffix| <= |r| && r[..|prefix|] == prefix && r[|prefix|..|r| - |suffix|] == body
      && (suffix == "" ==> r == prefix + body)
  {
  }
}
