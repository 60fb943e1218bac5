/** The record types and constant tables of `types.ts`. */
module Types {
  import opened Wrappers

  datatype Emotion = Neutral | Happy | Sad | Excited | Angry | Whisper

  /** The string value of each `Emotion` enum member. */
  function EmotionLabel(e: Emotion): string {
    match e
    case Neutral => "Neutral"
    case Happy => "Happy & Cheerful"
    case Sad => "Sad & Emotional"
    case Excited => "Excited & Energetic"
    case Angry => "Angry & Serious"
    case Whisper => "Soft & Whispering"
  }

  datatype Gender = Male | Female

  datatype Voice = Voice(name: string, displayLabel: string, description: string, gender: Gender)

  datatype HistoryItem = HistoryItem(
    id: string,
    original: string,
    translated: string,
    from: string,
    to: string,
    timestamp: int)

  /** The single record the application keeps its session in. */
  datatype TranslationState = TranslationState(
    originalText: string,
    translatedText: string,
    sourceLang: string,
    targetLang: string,
    isTranslating: bool,
    isGeneratingSpeech: bool,
    isSpeaking: bool,
    audioUrl: Option<string>,
    selectedEmotion: Emotion,
    selectedVoice: string,
    selectedGender: Gender,
    isNewsMode: bool,
    history: seq<HistoryItem>,
    isOnline: bool)

  const VOICES: seq<Voice> := [
    Voice("Puck", "Puck", "Bright & Playful", Male),
    Voice("Charon", "Charon", "Deep & Authoritative", Male),
    Voice("Fenrir", "Fenrir", "Warm & Natural", Male)
  ]

  datatype Language = Language(code: string, name: string)

  const LANGUAGES: seq<Language> := [
    Language("en", "English"),
    Language("bn", "Bengali (বাংলা)"),
    Language("es", "Spanish"),
    Language("fr", "French"),
    Language("de", "German"),
    Language("hi", "Hindi"),
    Language("ja", "Japanese"),
    Language("ar", "Arabic")
  ]

  /** Phrase (already lower-case and trimmed) to target language code to translation. */
  const OFFLINE_DICTIONARY: map<string, map<string, string>> := map[
    "hello" := map["bn" := "নমস্কার / হ্যালো", "es" := "Hola", "fr" := "Bonjour"],
    "thank you" := map["bn" := "ধন্যবাদ", "es" := "Gracias", "fr" := "Merci"],
    "help" := map["bn" := "সাহায্য করুন", "es" := "Ayuda", "fr" := "Aide"],
    "how are you" := map["bn" := "কেমন আছেন?", "es" := "¿Cómo estás?", "fr" := "Comment ça va?"]
  ]

  /** No two members of the `Emotion` enum share a string value. */
  lemma EmotionLabelsDistinct(e1: Emotion, e2: Emotion)
    requires e1 != e2
    ensures EmotionLabel(e1) != EmotionLabel(e2)
  {
  }

  /** Every voice on offer is tagged male. */
  lemma AllVoicesMale()
    ensures forall i :: 0 <= i < |VOICES| ==> VOICES[i].gender == Male
  {
  }

  /** Voice names identify voices. */
  lemma VoiceNamesDistinct()
    ensures forall i, j :: 0 <= i < j < |VOICES| ==> VOICES[i].name != VOICES[j].name
  {
  }

  /** Language codes identify languages, so a lookup by code finds at most one entry. */
  lemma LanguageCodesDistinct()
    ensures forall i, j :: 0 <= i < j < |LANGUAGES| ==> LANGUAGES[i].code != LANGUAGES[j].code
  {
  }

  /** Every language in the picker has a display name. */
  lemma LanguageNamesNonEmpty()
    ensures forall i :: 0 <= i < |LANGUAGES| ==> LANGUAGES[i].name != ""
  {
  }

  /** The offline phrasebook translates only into Bengali, Spanish and French. */
  lemma DictionaryTargets()
    ensures forall p :: p in OFFLINE_DICTIONARY ==> OFFLINE_DICTIONARY[p].Keys == {"bn", "es", "fr"}
  {
  }

  /** Every phrasebook entry is a non-empty string, so each is a truthy lookup result. */
  lemma DictionaryValuesNonEmpty()
    ensures forall p, l :: p in OFFLINE_DICTIONARY && l in OFFLINE_DICTIONARY[p] ==> OFFLINE_DICTIONARY[p][l] != ""
  {
  }
}
