/**
 * The part of `services/geminiService.ts` that does not talk to the network: the prompt
 * strings sent to the model, how the reply text becomes a translation, and the rule that a
 * speech reply without inline audio data is an error.
 */
module GeminiService {
  import opened Wrappers
  import opened Text
  import opened Types

  /** The `contents` sent by `translateText`. */
  function TranslationPrompt(text: string, from: string, to: string): string {
    "Translate the following text from " + (from + (" to " + (to
      + (". Return only the translated text.\n    \n    " + ("Text: " + text)))))
  }

  /** The translation prompt names both languages and ends with the text to translate. */
  lemma TranslationPromptMentions(text: string, from: string, to: string)
    ensures Occurs(from, TranslationPrompt(text, from, to))
    ensures Occurs(to, TranslationPrompt(text, from, to))
    ensures IsSuffix("Text: " + text, TranslationPrompt(text, from, to))
  {
    var last := "Text: " + text;
    var tail := ". Return only the translated text.\n    \n    " + last;
    var fromOn := from + (" to " + (to + tail));
    OccursAtStart(from, " to " + (to + tail));
    OccursAfter("Translate the following text from ", from, fromOn);
    OccursAtStart(to, tail);
    OccursAfter(" to ", to, to + tail);
    OccursAfter(from, to, " to " + (to + tail));
    OccursAfter("Translate the following text from ", to, fromOn);
    IsSuffixAfter(". Return only the translated text.\n    \n    ", last, last);
    IsSuffixAfter(to, last, tail);
    IsSuffixAfter(" to ", last, to + tail);
    IsSuffixAfter(from, last, " to " + (to + tail));
    IsSuffixAfter("Translate the following text from ", last, fromOn);
  }

  /** For a fixed language pair, the text can be read back from the translation prompt. */
  lemma TranslationPromptInjective(t1: string, t2: string, from: string, to: string)
    requires TranslationPrompt(t1, from, to) == TranslationPrompt(t2, from, to)
    ensures t1 == t2
  {
    var tail1 := ". Return only the translated text.\n    \n    " + ("Text: " + t1);
    var tail2 := ". Return only the translated text.\n    \n    " + ("Text: " + t2);
    CancelPrefix("Translate the following text from ", from + (" to " + (to + tail1)), from + (" to " + (to + tail2)));
    CancelPrefix(from, " to " + (to + tail1), " to " + (to + tail2));
    CancelPrefix(" to ", to + tail1, to + tail2);
    CancelPrefix(to, tail1, tail2);
    CancelPrefix(". Return only the translated text.\n    \n    ", "Text: " + t1, "Text: " + t2);
    CancelPrefix("Text: ", t1, t2);
  }

  /** `response.text || ""`: a missing or empty reply text is the empty translation. */
  function TranslationResult(responseText: Option<string>): (r: string)
    ensures r == "" <==> (responseText == None || responseText == Some(""))
    ensures r != "" ==> responseText == Some(r)
  {
    match responseText
    case Some(t) => t
    case None => ""
  }

  function Quoted(text: string): string {
    "\"" + (text + "\"")
  }

  /** The `voicePrompt` of `generateExpressiveSpeech`; news mode replaces the emotion prompt. */
  function SpeechPrompt(text: string, emotion: Emotion, language: string, isNewsMode: bool): string {
    if isNewsMode then
      NEWS_HEAD + (language + (NEWS_MID + Quoted(text)))
    else
      "Speak the following " + (language + (" text with a " + (Lower(EmotionLabel(emotion)) + (" tone: " + Quoted(text)))))
  }

  const NEWS_HEAD: string := "Act as a professional news presenter. Deliver the following "
  const NEWS_MID: string := " text with clear articulation, formal tone, perfectly measured pacing, and a crisp broadcast quality: "

  /** In news mode the prompt does not depend on the selected emotion. */
  lemma NewsModeIgnoresEmotion(text: string, e1: Emotion, e2: Emotion, language: string)
    ensures SpeechPrompt(text, e1, language, true) == SpeechPrompt(text, e2, language, true)
  {
  }

  /** Both prompts end with the text in double quotes and name the language. */
  lemma SpeechPromptEndsWithQuotedText(text: string, emotion: Emotion, language: string, isNewsMode: bool)
    ensures IsSuffix(Quoted(text), SpeechPrompt(text, emotion, language, isNewsMode))
    ensures Occurs(language, SpeechPrompt(text, emotion, language, isNewsMode))
  {
    var q := Quoted(text);
    assert IsSuffix(q, q);
    if isNewsMode {
      IsSuffixAfter(NEWS_MID, q, q);
      IsSuffixAfter(language, q, NEWS_MID + q);
      IsSuffixAfter(NEWS_HEAD, q, language + (NEWS_MID + q));
      OccursAtStart(language, NEWS_MID + q);
      OccursAfter(NEWS_HEAD, language, language + (NEWS_MID + q));
    } else {
      var lowered := Lower(EmotionLabel(emotion));
      var rest := " text with a " + (lowered + (" tone: " + q));
      IsSuffixAfter(" tone: ", q, q);
      IsSuffixAfter(lowered, q, " tone: " + q);
      IsSuffixAfter(" text with a ", q, lowered + (" tone: " + q));
      IsSuffixAfter(language, q, rest);
      IsSuffixAfter("Speak the following ", q, language + rest);
      OccursAtStart(language, rest);
      OccursAfter("Speak the following ", language, language + rest);
    }
  }

  /** Outside news mode the prompt carries the lower-cased emotion. */
  lemma NormalPromptMentionsEmotion(text: string, emotion: Emotion, language: string)
    ensures Occurs(Lower(EmotionLabel(emotion)), SpeechPrompt(text, emotion, language, false))
  {
    var lowered := Lower(EmotionLabel(emotion));
    var tail := " tone: " + Quoted(text);
    OccursAtStart(lowered, tail);
    OccursAfter(" text with a ", lowered, lowered + tail);
    OccursAfter(language, lowered, " text with a " + (lowered + tail));
    OccursAfter("Speak the following ", lowered, language + (" text with a " + (lowered + tail)));
  }

  /** Distinct emotions stay distinct once their labels are lower-cased. */
  lemma LoweredLabelsDistinct(e1: Emotion, e2: Emotion)
    requires e1 != e2
    ensures Lower(EmotionLabel(e1)) != Lower(EmotionLabel(e2))
  {
    var a, b := EmotionLabel(e1), EmotionLabel(e2);
    if |a| == |b| {
      assert {e1, e2} == {Sad, Angry};
      assert a[1] != b[1] && !IsUpper(a[1]) && !IsUpper(b[1]);
      assert Lower(a)[1] != Lower(b)[1];
    }
  }

  /** Outside news mode different emotions give different prompts. */
  lemma NormalPromptDistinguishesEmotions(text: string, e1: Emotion, e2: Emotion, language: string)
    requires e1 != e2
    ensures SpeechPrompt(text, e1, language, false) != SpeechPrompt(text, e2, language, false)
  {
    var l1, l2 := Lower(EmotionLabel(e1)), Lower(EmotionLabel(e2));
    var tail := " tone: " + Quoted(text);
    if SpeechPrompt(text, e1, language, false) == SpeechPrompt(text, e2, language, false) {
      CancelPrefix("Speak the following ", language + (" text with a " + (l1 + tail)), language + (" text with a " + (l2 + tail)));
      CancelPrefix(language, " text with a " + (l1 + tail), " text with a " + (l2 + tail));
      CancelPrefix(" text with a ", l1 + tail, l2 + tail);
      CancelSuffix(l1, l2, tail);
      LoweredLabelsDistinct(e1, e2);
    }
  }

  /** For fixed settings, the text can be read back from the speech prompt. */
  lemma SpeechPromptInjective(t1: string, t2: string, emotion: Emotion, language: string, isNewsMode: bool)
    requires SpeechPrompt(t1, emotion, language, isNewsMode) == SpeechPrompt(t2, emotion, language, isNewsMode)
    ensures t1 == t2
  {
    var q1, q2 := Quoted(t1), Quoted(t2);
    if isNewsMode {
      CancelPrefix(NEWS_HEAD, language + (NEWS_MID + q1), language + (NEWS_MID + q2));
      CancelPrefix(language, NEWS_MID + q1, NEWS_MID + q2);
      CancelPrefix(NEWS_MID, q1, q2);
    } else {
      var lowered := Lower(EmotionLabel(emotion));
      var r1, r2 := " text with a " + (lowered + (" tone: " + q1)), " text with a " + (lowered + (" tone: " + q2));
      CancelPrefix("Speak the following ", language + r1, language + r2);
      CancelPrefix(language, r1, r2);
      CancelPrefix(" text with a ", lowered + (" tone: " + q1), lowered + (" tone: " + q2));
      CancelPrefix(lowered, " tone: " + q1, " tone: " + q2);
      CancelPrefix(" tone: ", q1, q2);
    }
    CancelPrefix("\"", t1 + "\"", t2 + "\"");
    CancelSuffix(t1, t2, "\"");
  }

  /** The parts of a speech reply the code reads; every level may be absent. */
  datatype InlineData = InlineData(data: Option<string>)
  datatype Part = Part(inlineData: Option<InlineData>)
  datatype Content = Content(parts: Option<seq<Part>>)
  datatype Candidate = Candidate(content: Option<Content>)
  datatype SpeechResponse = SpeechResponse(candidates: Option<seq<Candidate>>)

  const NO_AUDIO_MESSAGE: string := "No audio data returned from Gemini API"

  /** `response.candidates?.[0]?.content?.parts?.[0]?.inlineData?.data`. */
  function FirstInlineData(resp: SpeechResponse): Option<string> {
    if resp.candidates.None? || |resp.candidates.value| == 0 then None
    else
      var content := resp.candidates.value[0].content;
      if content.None? || content.value.parts.None? || |content.value.parts.value| == 0 then None
      else
        var inline := content.value.parts.value[0].inlineData;
        if inline.None? then None else inline.value.data
  }

  /**
   * The payload `generateExpressiveSpeech` returns, or the error it throws when the reply
   * has no inline audio data (missing or empty).
   */
  function AudioPayload(resp: SpeechResponse): (r: Result<string, string>)
    ensures r.Success? <==> exists b :: FirstInlineData(resp) == Some(b) && b != ""
    ensures r.Success? ==> FirstInlineData(resp) == Some(r.value) && r.value != ""
    ensures r.Failure? ==> r.error == NO_AUDIO_MESSAGE
  {
    match FirstInlineData(resp)
    case Some(b) => if b != "" then Success(b) else Failure(NO_AUDIO_MESSAGE)
    case None => Failure(NO_AUDIO_MESSAGE)
  }

  /** The reply shape the service produces: one candidate whose first part carries the audio. */
  function ResponseWithAudio(payload: string): SpeechResponse {
    SpeechResponse(Some([Candidate(Some(Content(Some([Part(Some(InlineData(Some(payload))))]))))]))
  }

  /** A reply carrying a non-empty payload yields exactly that payload. */
  lemma AudioPayloadOfResponse(payload: string)
    requires payload != ""
    ensures AudioPayload(ResponseWithAudio(payload)) == Success(payload)
  {
  }

  /**
   * Some link of `candidates?.[0]?.content?.parts?.[0]?.inlineData?.data` is missing, or the
   * data at its end is empty.
   */
  predicate NoAudio(resp: SpeechResponse) {
    || resp.candidates.None?
    || |resp.candidates.value| == 0
    || resp.candidates.value[0].content.None?
    || resp.candidates.value[0].content.value.parts.None?
    || |resp.candidates.value[0].content.value.parts.value| == 0
    || resp.candidates.value[0].content.value.parts.value[0].inlineData.None?
    || resp.candidates.value[0].content.value.parts.value[0].inlineData.value.data.None?
    || resp.candidates.value[0].content.value.parts.value[0].inlineData.value.data == Some("")
  }

  /** A reply fails with the no-audio error exactly when a link of the chain is missing or the data is empty. */
  lemma AudioPayloadMissing(resp: SpeechResponse)
    ensures NoAudio(resp) <==> AudioPayload(resp).Failure?
    ensures NoAudio(resp) ==> AudioPayload(resp) == Failure(NO_AUDIO_MESSAGE)
  {
  }
}
