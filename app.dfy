/**
 * The translation and speech session of `App.tsx`: the pure rules around it (phrasebook
 * lookup, language names, the bounded history, the swap button, the voice filter) and a
 * `Session` object holding the state record, the error banner and the playback handle,
 * with one method per event the component handles. Every `await` splits a handler into
 * the part before it (which returns the request it sends) and a completion event.
 */
module App {
  import opened Wrappers
  import opened Text
  import opened Types
  import opened GeminiService

  const HISTORY_LIMIT: nat := 20

  const OFFLINE_MESSAGE: string := "Offline mode active. Only basic phrases work without internet."
  const TRANSLATION_FAILED_MESSAGE: string := "Translation failed. Check connection."
  const SYNTHESIS_FAILED_MESSAGE: string := "Voice synthesis failed."

  // ---------------------------------------------------------------------------------
  // Offline phrasebook

  /** A phrasebook: translations by phrase, then by language code. */
  type Phrasebook = map<string, map<string, string>>

  /** `book[phrase] && book[phrase][lang]`: a truthy entry. */
  function PhrasebookEntry(book: Phrasebook, phrase: string, lang: string): Option<string> {
    if phrase in book && lang in book[phrase] && book[phrase][lang] != ""
    then Some(book[phrase][lang])
    else None
  }

  /** The entry of `book` for the lower-cased, trimmed form of the typed text. */
  function PhraseLookup(book: Phrasebook, text: string, lang: string): Option<string> {
    PhrasebookEntry(book, Trim(Lower(text)), lang)
  }

  /** The offline translation of the typed text, from the built-in phrasebook. */
  function OfflineTranslation(text: string, lang: string): Option<string> {
    PhraseLookup(OFFLINE_DICTIONARY, text, lang)
  }

  /** Every phrasebook key is already lower-case and trimmed. */
  lemma DictionaryKeysNormalised()
    ensures forall p :: p in OFFLINE_DICTIONARY ==> Trim(Lower(p)) == p
    ensures forall p :: p in OFFLINE_DICTIONARY ==> p != [] && !IsWhiteSpace(p[0]) && !IsWhiteSpace(p[|p| - 1])
  {
    forall p | p in OFFLINE_DICTIONARY
      ensures Trim(Lower(p)) == p && p != [] && !IsWhiteSpace(p[0]) && !IsWhiteSpace(p[|p| - 1])
    {
      assert p in {"hello", "thank you", "help", "how are you"};
      KeyNormalised(p);
    }
  }

  lemma KeyNormalised(p: string)
    requires IsLowerCase(p)
    requires p != [] ==> !IsWhiteSpace(p[0]) && !IsWhiteSpace(p[|p| - 1])
    ensures Trim(Lower(p)) == p
  {
    LowerOfLowerCase(p);
    assert p == [] + p + [];
    TrimOfPadded([], p, []);
  }

  /** Typing any phrasebook key, in any ASCII case and with any white space around it, hits its entries. */
  lemma OfflineHitsPaddedKey(before: string, text: string, after: string, lang: string)
    requires AllWhiteSpace(before) && AllWhiteSpace(after)
    requires Lower(text) in OFFLINE_DICTIONARY && lang in OFFLINE_DICTIONARY[Lower(text)]
    ensures OfflineTranslation(before + text + after, lang) == Some(OFFLINE_DICTIONARY[Lower(text)][lang])
  {
    var key := Lower(text);
    assert Lower(before + text + after) == Lower(before) + key + Lower(after) by {
      LowerConcat(before + text, after);
      LowerConcat(before, text);
    }
    assert AllWhiteSpace(Lower(before)) && AllWhiteSpace(Lower(after)) by {
      LowerKeepsAllWhiteSpace(before);
      LowerKeepsAllWhiteSpace(after);
    }
    assert key != [] && !IsWhiteSpace(key[0]) && !IsWhiteSpace(key[|key| - 1]) by {
      DictionaryKeysNormalised();
    }
    TrimOfPadded(Lower(before), key, Lower(after));
    assert Trim(Lower(before + text + after)) == key;
    PhrasebookEntryOfKey(key, lang);
  }

  lemma PhrasebookEntryOfKey(key: string, lang: string)
    requires key in OFFLINE_DICTIONARY && lang in OFFLINE_DICTIONARY[key]
    ensures PhrasebookEntry(OFFLINE_DICTIONARY, key, lang) == Some(OFFLINE_DICTIONARY[key][lang])
  {
    DictionaryValuesNonEmpty();
  }

  /** Every phrasebook entry is reachable by typing its key. */
  lemma OfflineHitsEveryEntry(phrase: string, lang: string)
    requires phrase in OFFLINE_DICTIONARY && lang in OFFLINE_DICTIONARY[phrase]
    ensures OfflineTranslation(phrase, lang) == Some(OFFLINE_DICTIONARY[phrase][lang])
  {
    DictionaryKeysNormalised();
    DictionaryValuesNonEmpty();
  }

  /** The fixed entries for "hello". */
  lemma OfflineHello()
    ensures OfflineTranslation("hello", "bn") == Some("নমস্কার / হ্যালো")
    ensures OfflineTranslation("hello", "es") == Some("Hola")
  {
    OfflineHitsEveryEntry("hello", "bn");
    OfflineHitsEveryEntry("hello", "es");
  }

  /** Case and surrounding spaces do not matter: " Hello " finds the Bengali entry. */
  lemma OfflineHelloPadded()
    ensures OfflineTranslation(" Hello ", "bn") == Some("নমস্কার / হ্যালো")
  {
    assert Lower("Hello") == "hello" by {}
    assert " Hello " == " " + "Hello" + " " by {}
    OfflineHitsPaddedKey(" ", "Hello", " ", "bn");
  }

  /**
   * Only text with something other than white space can hit the phrasebook, so the blank
   * input guard in front of the lookup never hides an entry.
   */
  lemma OfflineHitNotBlank(text: string, lang: string)
    requires OfflineTranslation(text, lang).Some?
    ensures Trim(text) != ""
  {
    TrimLowerCommute(text);
    DictionaryKeysNormalised();
  }

  /** Offline translation into a language the phrasebook does not list always misses. */
  lemma OfflineMissesUnlistedTarget(text: string, lang: string)
    requires lang != "bn" && lang != "es" && lang != "fr"
    ensures OfflineTranslation(text, lang) == None
  {
    DictionaryTargets();
  }

  /** Offline translation into English, German, Hindi, Japanese or Arabic always misses. */
  lemma OfflineMissesOtherTargets(text: string, lang: string)
    requires lang in {"en", "de", "hi", "ja", "ar"}
    ensures OfflineTranslation(text, lang) == None
  {
    OfflineMissesUnlistedTarget(text, lang);
  }

  // ---------------------------------------------------------------------------------
  // Language names

  /** `langs.find(l => l.code === code)`: the first entry with that code, if any. */
  function FindLanguage(langs: seq<Language>, code: string): (r: Option<Language>)
    ensures r.None? <==> forall i :: 0 <= i < |langs| ==> langs[i].code != code
    ensures r.Some? ==> exists i :: 0 <= i < |langs| && langs[i] == r.value && langs[i].code == code
                                    && forall j :: 0 <= j < i ==> langs[j].code != code
  {
    if |langs| == 0 then None
    else if langs[0].code == code then Some(langs[0])
    else
      var r := FindLanguage(langs[1..], code);
      assert r.Some? ==> exists i :: 1 <= i < |langs| && langs[i] == r.value && langs[i].code == code
                                     && forall j :: 0 <= j < i ==> langs[j].code != code by {
        if r.Some? {
          var i :| 0 <= i < |langs| - 1 && langs[1..][i] == r.value && langs[1..][i].code == code
                    && forall j :: 0 <= j < i ==> langs[1..][j].code != code;
          assert forall j :: 0 <= j < i + 1 ==> langs[j].code != code by {
            forall j | 0 <= j < i + 1 ensures langs[j].code != code {
              if j > 0 { assert langs[j] == langs[1..][j - 1]; }
            }
          }
        }
      }
      r
  }

  /** `LANGUAGES.find(l => l.code === code)?.name || code`. */
  function LanguageName(code: string): string {
    match FindLanguage(LANGUAGES, code)
    case Some(l) => if l.name != "" then l.name else code
    case None => code
  }

  /** Each listed code names its own language. */
  lemma LanguageNameOfListed(i: nat)
    requires i < |LANGUAGES|
    ensures LanguageName(LANGUAGES[i].code) == LANGUAGES[i].name
  {
    LanguageCodesDistinct();
    LanguageNamesNonEmpty();
    FindListedLanguage(LANGUAGES, i);
  }

  /** In a table without repeated codes, looking up a listed code finds that very entry. */
  lemma FindListedLanguage(langs: seq<Language>, i: nat)
    requires i < |langs|
    requires forall j, k :: 0 <= j < k < |langs| ==> langs[j].code != langs[k].code
    ensures FindLanguage(langs, langs[i].code) == Some(langs[i])
  {
    var r := FindLanguage(langs, langs[i].code);
    var k :| 0 <= k < |langs| && langs[k] == r.value && langs[k].code == langs[i].code
             && forall j :: 0 <= j < k ==> langs[j].code != langs[i].code;
    assert k == i;
  }

  /** A code missing from the table is passed on as it is. */
  lemma LanguageNameOfUnlisted(code: string)
    requires forall i :: 0 <= i < |LANGUAGES| ==> LANGUAGES[i].code != code
    ensures LanguageName(code) == code
  {
  }

  /** The language named in the speech prompt. */
  function SpeechLanguage(targetLang: string): string {
    if targetLang == "bn" then "Bengali" else "English"
  }

  /**
   * Only Bengali is named as itself: every other target, Spanish and French included, is
   * spoken as "English".
   */
  lemma SpeechLanguageRule(targetLang: string)
    ensures SpeechLanguage(targetLang) == "Bengali" <==> targetLang == "bn"
    ensures targetLang != "bn" ==> SpeechLanguage(targetLang) == "English"
  {
  }

  // ---------------------------------------------------------------------------------
  // History

  /**
   * `[item, ...history].slice(0, 20)`: the new item first, then the older items in their
   * order, keeping at most 20.
   */
  function PushHistory(item: HistoryItem, history: seq<HistoryItem>): (r: seq<HistoryItem>)
    ensures |r| == if |history| < HISTORY_LIMIT then |history| + 1 else HISTORY_LIMIT
    ensures r[0] == item
    ensures forall i :: 1 <= i < |r| ==> r[i] == history[i - 1]
  {
    var pushed := [item] + history;
    if |pushed| > HISTORY_LIMIT then pushed[..HISTORY_LIMIT] else pushed
  }

  /** Pushing onto a full history drops exactly the oldest item. */
  lemma PushHistoryEvictsOldest(item: HistoryItem, history: seq<HistoryItem>)
    requires |history| == HISTORY_LIMIT
    ensures PushHistory(item, history) == [item] + history[..HISTORY_LIMIT - 1]
  {
  }

  /** The first `HISTORY_LIMIT` items of `items`. */
  function Newest(items: seq<HistoryItem>): seq<HistoryItem> {
    if |items| > HISTORY_LIMIT then items[..HISTORY_LIMIT] else items
  }

  function Reversed(items: seq<HistoryItem>): seq<HistoryItem> {
    if items == [] then [] else Reversed(items[1..]) + [items[0]]
  }

  /** The history after `items` were translated one after another, oldest first. */
  function PushAll(history: seq<HistoryItem>, items: seq<HistoryItem>): seq<HistoryItem>
    decreases |items|
  {
    if items == [] then history else PushAll(PushHistory(items[0], history), items[1..])
  }

  lemma NewestOfNewest(a: seq<HistoryItem>, b: seq<HistoryItem>)
    ensures Newest(a + Newest(b)) == Newest(a + b)
  {
    if |b| > HISTORY_LIMIT {
      assert (a + b)[..HISTORY_LIMIT] == (a + b[..HISTORY_LIMIT])[..HISTORY_LIMIT];
    }
  }

  /**
   * Any run of translations leaves the 20 most recent items, newest first, followed by
   * as many of the earlier history as fit.
   */
  lemma {:induction false} PushAllKeepsNewest(history: seq<HistoryItem>, items: seq<HistoryItem>)
    requires |history| <= HISTORY_LIMIT
    ensures PushAll(history, items) == Newest(Reversed(items) + history)
    decreases |items|
  {
    if items != [] {
      PushIsNewest(items[0], history);
      PushAllKeepsNewest(PushHistory(items[0], history), items[1..]);
      NewestOfNewest(Reversed(items[1..]), [items[0]] + history);
      ReversedOnto(items, history);
    }
  }

  lemma PushIsNewest(item: HistoryItem, history: seq<HistoryItem>)
    ensures PushHistory(item, history) == Newest([item] + history)
  {
  }

  lemma ReversedOnto(items: seq<HistoryItem>, rest: seq<HistoryItem>)
    requires items != []
    ensures Reversed(items) + rest == Reversed(items[1..]) + ([items[0]] + rest)
  {
    assert Reversed(items) == Reversed(items[1..]) + [items[0]];
  }

  /** The history never holds more than 20 items once it has at most 20. */
  lemma PushAllBounded(history: seq<HistoryItem>, items: seq<HistoryItem>)
    requires |history| <= HISTORY_LIMIT
    ensures |PushAll(history, items)| <= HISTORY_LIMIT
  {
    PushAllKeepsNewest(history, items);
  }

  // ---------------------------------------------------------------------------------
  // Swap button and voice filter

  /** The swap button: exchange the languages and the two texts. */
  function Swapped(s: TranslationState): TranslationState {
    s.(sourceLang := s.targetLang, targetLang := s.sourceLang,
       originalText := s.translatedText, translatedText := s.originalText)
  }

  /** Swapping exchanges the language pair and the texts and changes nothing else. */
  lemma SwapExchanges(s: TranslationState)
    ensures Swapped(s).sourceLang == s.targetLang && Swapped(s).targetLang == s.sourceLang
    ensures Swapped(s).originalText == s.translatedText && Swapped(s).translatedText == s.originalText
    ensures Swapped(s).(sourceLang := s.sourceLang, targetLang := s.targetLang,
                        originalText := s.originalText, translatedText := s.translatedText) == s
  {
  }

  /** Pressing the swap button twice restores the state. */
  lemma SwapInvolution(s: TranslationState)
    ensures Swapped(Swapped(s)) == s
  {
  }

  /** `voices.filter(v => v.gender === gender)`. */
  function FilterVoices(voices: seq<Voice>, gender: Gender): (r: seq<Voice>)
    ensures |r| <= |voices|
    ensures forall i :: 0 <= i < |r| ==> r[i].gender == gender && r[i] in voices
    ensures forall i :: 0 <= i < |voices| && voices[i].gender == gender ==> voices[i] in r
  {
    if voices == [] then []
    else
      var rest := FilterVoices(voices[1..], gender);
      assert forall i :: 1 <= i < |voices| ==> voices[i] == voices[1..][i - 1];
      if voices[0].gender == gender then [voices[0]] + rest else rest
  }

  /** When every voice has the gender, filtering keeps the list as it is. */
  lemma {:induction false} FilterVoicesKeepsAll(voices: seq<Voice>, gender: Gender)
    requires forall i :: 0 <= i < |voices| ==> voices[i].gender == gender
    ensures FilterVoices(voices, gender) == voices
  {
    if voices != [] {
      FilterVoicesKeepsAll(voices[1..], gender);
    }
  }

  /** Filtering one voice keeps it exactly when it has the gender. */
  lemma FilterVoicesSingle(v: Voice, gender: Gender)
    ensures FilterVoices([v], gender) == if v.gender == gender then [v] else []
  {
  }

  /**
   * Filtering a concatenation filters each part and keeps them in order. With
   * `FilterVoicesSingle` this fixes the filter: the matching voices in their input order,
   * each as often as it occurs.
   */
  lemma {:induction false} FilterVoicesAppend(a: seq<Voice>, b: seq<Voice>, gender: Gender)
    ensures FilterVoices(a + b, gender) == FilterVoices(a, gender) + FilterVoices(b, gender)
    decreases |a|
  {
    if a == [] {
      assert a + b == b;
    } else {
      assert (a + b)[0] == a[0];
      assert (a + b)[1..] == a[1..] + b;
      FilterVoicesAppend(a[1..], b, gender);
    }
  }

  /** All voices are male: filtering by male offers all three, filtering by female none. */
  lemma VoiceFilterByGender()
    ensures FilterVoices(VOICES, Male) == VOICES
    ensures FilterVoices(VOICES, Female) == []
  {
    AllVoicesMale();
    FilterVoicesKeepsAll(VOICES, Male);
  }

  // ---------------------------------------------------------------------------------
  // The session

  /** What `handleTranslate` sends: the text and language pair read when it was called. */
  datatype TranslationRequest = TranslationRequest(original: string, from: string, to: string, prompt: string)

  /** What `handleSpeak` sends: the text, language and voice read when it was called. */
  datatype SpeechRequest = SpeechRequest(text: string, language: string, voiceName: string, prompt: string)

  /** An audio buffer source node of the platform, by identity. */
  type SourceHandle = nat

  class Session {
    var state: TranslationState
    /** The error banner. */
    var error: Option<string>
    /** `audioSourceRef.current`: the node playing the last utterance. */
    var audioSource: Option<SourceHandle>
    /** Whether `audioContextRef.current` has been created. */
    var hasAudioContext: bool
    /** The phrasebook the offline branch reads: `OFFLINE_DICTIONARY`. */
    const phrasebook: Phrasebook

    /** The speech axis is in at most one of synthesizing and speaking. */
    ghost predicate Valid()
      reads this
    {
      !(state.isGeneratingSpeech && state.isSpeaking)
    }

    /** The initial state, with the history read from storage and the connectivity at start. */
    constructor (savedHistory: seq<HistoryItem>, online: bool)
      ensures Valid()
      ensures state == TranslationState("", "", "en", "bn", false, false, false, None,
                                        Neutral, "Puck", Male, false, savedHistory, online)
      ensures error == None && audioSource == None && !hasAudioContext
      ensures phrasebook == OFFLINE_DICTIONARY
    {
      state := TranslationState("", "", "en", "bn", false, false, false, None,
                                Neutral, "Puck", Male, false, savedHistory, online);
      error := None;
      audioSource := None;
      hasAudioContext := false;
      phrasebook := OFFLINE_DICTIONARY;
    }

    /** `filteredVoices`: the voices offered for the selected gender. */
    function FilteredVoices(): (r: seq<Voice>)
      reads this
      ensures forall i :: 0 <= i < |r| ==> r[i].gender == state.selectedGender && r[i] in VOICES
      ensures forall i :: 0 <= i < |VOICES| && VOICES[i].gender == state.selectedGender ==> VOICES[i] in r
    {
      FilterVoices(VOICES, state.selectedGender)
    }

    /**
     * `handleTranslate` up to its `await`: ignore blank input; offline, answer from the
     * phrasebook or raise the offline error; online, clear the output and the error, mark
     * the translation in flight and return the request sent.
     */
    method HandleTranslate() returns (request: Option<TranslationRequest>)
      requires Valid()
      modifies this
      ensures Valid()
      ensures audioSource == old(audioSource) && hasAudioContext == old(hasAudioContext)
      ensures Trim(old(state).originalText) == "" ==>
                state == old(state) && error == old(error) && request == None
      ensures Trim(old(state).originalText) != "" && !old(state).isOnline ==> request == None
      ensures Trim(old(state).originalText) != "" && !old(state).isOnline
              && PhraseLookup(phrasebook, old(state).originalText, old(state).targetLang).Some? ==>
                state == old(state).(translatedText := PhraseLookup(phrasebook, old(state).originalText, old(state).targetLang).value)
                && error == old(error)
      ensures Trim(old(state).originalText) != "" && !old(state).isOnline
              && PhraseLookup(phrasebook, old(state).originalText, old(state).targetLang).None? ==>
                state == old(state) && error == Some(OFFLINE_MESSAGE)
      ensures Trim(old(state).originalText) != "" && old(state).isOnline ==>
                && state == old(state).(isTranslating := true, audioUrl := None, translatedText := "")
                && error == None
                && request == Some(TranslationRequest(
                     old(state).originalText, old(state).sourceLang, old(state).targetLang,
                     TranslationPrompt(old(state).originalText, LanguageName(old(state).sourceLang),
                                       LanguageName(old(state).targetLang))))
    {
      if Trim(state.originalText) == "" {
        request := None;
      } else if !state.isOnline {
        TranslateOffline();
        request := None;
      } else {
        var sent := StartTranslation();
        request := Some(sent);
      }
    }

    /**
     * The online branch of `handleTranslate` before its `await`: mark the translation in
     * flight, clear the output, the audio URL and the error, and return the request sent.
     * An internal step of `HandleTranslate`, not an event of its own: the component only
     * reaches it with non-blank text while online.
     */
    method StartTranslation() returns (request: TranslationRequest)
      requires Valid()
      modifies this
      ensures Valid()
      ensures state == old(state).(isTranslating := true, audioUrl := None, translatedText := "")
      ensures error == None && audioSource == old(audioSource) && hasAudioContext == old(hasAudioContext)
      ensures request == TranslationRequest(
                old(state).originalText, old(state).sourceLang, old(state).targetLang,
                TranslationPrompt(old(state).originalText, LanguageName(old(state).sourceLang),
                                  LanguageName(old(state).targetLang)))
    {
      var original, from, to := state.originalText, state.sourceLang, state.targetLang;
      state := state.(isTranslating := true, audioUrl := None, translatedText := "");
      error := None;
      request := TranslationRequest(original, from, to, TranslationPrompt(original, LanguageName(from), LanguageName(to)));
    }

    /**
     * The offline branch of `handleTranslate`: show the phrasebook entry, or raise the offline
     * error. An internal step of `HandleTranslate`, not an event of its own: the component
     * only reaches it with non-blank text while offline.
     */
    method TranslateOffline()
      requires Valid()
      modifies this
      ensures Valid()
      ensures audioSource == old(audioSource) && hasAudioContext == old(hasAudioContext)
      ensures PhraseLookup(phrasebook, old(state).originalText, old(state).targetLang).Some? ==>
                state == old(state).(translatedText := PhraseLookup(phrasebook, old(state).originalText, old(state).targetLang).value)
                && error == old(error)
      ensures PhraseLookup(phrasebook, old(state).originalText, old(state).targetLang).None? ==>
                state == old(state) && error == Some(OFFLINE_MESSAGE)
    {
      var offline := PhraseLookup(phrasebook, state.originalText, state.targetLang);
      if offline.Some? {
        state := state.(translatedText := offline.value);
      } else {
        error := Some(OFFLINE_MESSAGE);
      }
    }

    /**
     * The translation reply arrived: show it, end the request and put a history item made
     * from the request at the front of the history.
     */
    method OnTranslationSucceeded(request: TranslationRequest, responseText: Option<string>, id: string, timestamp: int)
      requires Valid()
      modifies this
      ensures Valid()
      ensures var translation := TranslationResult(responseText);
              state == old(state).(translatedText := translation, isTranslating := false,
                                   history := PushHistory(HistoryItem(id, request.original, translation,
                                                                     request.from, request.to, timestamp),
                                                          old(state).history))
      ensures error == old(error) && audioSource == old(audioSource) && hasAudioContext == old(hasAudioContext)
    {
      var translation := TranslationResult(responseText);
      var item := HistoryItem(id, request.original, translation, request.from, request.to, timestamp);
      state := state.(translatedText := translation, isTranslating := false,
                      history := PushHistory(item, state.history));
    }

    /** The translation request failed: raise the error and end the request; nothing else changes. */
    method OnTranslationFailed()
      requires Valid()
      modifies this
      ensures Valid()
      ensures error == Some(TRANSLATION_FAILED_MESSAGE)
      ensures state == old(state).(isTranslating := false)
      ensures audioSource == old(audioSource) && hasAudioContext == old(hasAudioContext)
    {
      error := Some(TRANSLATION_FAILED_MESSAGE);
      state := state.(isTranslating := false);
    }

    /** `stopAudio`: stop and forget the playing node, if any, and clear the speaking flag. */
    method StopAudio() returns (stopped: Option<SourceHandle>)
      requires Valid()
      modifies this
      ensures Valid()
      ensures stopped == old(audioSource) && audioSource == None
      ensures state == old(state).(isSpeaking := false)
      ensures error == old(error) && hasAudioContext == old(hasAudioContext)
    {
      stopped := audioSource;
      audioSource := None;
      state := state.(isSpeaking := false);
    }

    /**
     * `handleSpeak` up to its `await`: nothing without a translation or offline; while
     * speaking, stop instead; otherwise mark synthesis in flight, clear the error and
     * return the request sent.
     */
    method HandleSpeak() returns (request: Option<SpeechRequest>, stopped: Option<SourceHandle>)
      requires Valid()
      modifies this
      ensures Valid()
      ensures hasAudioContext == old(hasAudioContext)
      ensures old(state).translatedText == "" || !old(state).isOnline ==>
                state == old(state) && error == old(error) && audioSource == old(audioSource)
                && request == None && stopped == None
      ensures old(state).translatedText != "" && old(state).isOnline && old(state).isSpeaking ==>
                state == old(state).(isSpeaking := false) && error == old(error)
                && audioSource == None && stopped == old(audioSource) && request == None
      ensures old(state).translatedText != "" && old(state).isOnline && !old(state).isSpeaking ==>
                && state == old(state).(isGeneratingSpeech := true)
                && error == None && audioSource == old(audioSource) && stopped == None
                && request == Some(SpeechRequest(
                     old(state).translatedText, SpeechLanguage(old(state).targetLang), old(state).selectedVoice,
                     SpeechPrompt(old(state).translatedText, old(state).selectedEmotion,
                                  SpeechLanguage(old(state).targetLang), old(state).isNewsMode)))
    {
      request, stopped := None, None;
      if state.translatedText == "" || !state.isOnline {
        return;
      }
      if state.isSpeaking {
        stopped := StopAudio();
        return;
      }
      var text, language := state.translatedText, SpeechLanguage(state.targetLang);
      var voiceName, prompt := state.selectedVoice, SpeechPrompt(text, state.selectedEmotion, language, state.isNewsMode);
      state := state.(isGeneratingSpeech := true);
      error := None;
      request := Some(SpeechRequest(text, language, voiceName, prompt));
    }

    /**
     * The synthesis reply arrived. Without audio data it is the failure path; otherwise the
     * WAV resource at `url` (made from the payload) is exposed, the flags move to speaking,
     * the audio context is created if absent, and the payload is returned for decoding.
     */
    method OnSpeechResponse(response: SpeechResponse, url: string) returns (payload: Option<string>)
      requires Valid()
      modifies this
      ensures Valid()
      ensures audioSource == old(audioSource)
      ensures AudioPayload(response).Failure? ==>
                payload == None && error == Some(SYNTHESIS_FAILED_MESSAGE)
                && state == old(state).(isGeneratingSpeech := false, isSpeaking := false)
                && hasAudioContext == old(hasAudioContext)
      ensures AudioPayload(response).Success? ==>
                payload == Some(AudioPayload(response).value) && error == old(error)
                && state == old(state).(audioUrl := Some(url), isGeneratingSpeech := false, isSpeaking := true)
                && hasAudioContext
    {
      match AudioPayload(response)
      case Failure(_) =>
        OnSpeechFailed();
        payload := None;
      case Success(b) =>
        state := state.(audioUrl := Some(url), isGeneratingSpeech := false, isSpeaking := true);
        hasAudioContext := true;
        payload := Some(b);
    }

    /**
     * The `catch` of `handleSpeak` (the request was rejected, or decoding the payload or the
     * audio failed): raise the error and clear both speech flags; the audio URL stays.
     */
    method OnSpeechFailed()
      requires Valid()
      modifies this
      ensures Valid()
      ensures error == Some(SYNTHESIS_FAILED_MESSAGE)
      ensures state == old(state).(isGeneratingSpeech := false, isSpeaking := false)
      ensures audioSource == old(audioSource) && hasAudioContext == old(hasAudioContext)
    {
      error := Some(SYNTHESIS_FAILED_MESSAGE);
      state := state.(isGeneratingSpeech := false, isSpeaking := false);
    }

    /** The decoded buffer started playing on node `source`, which becomes the current node. */
    method OnPlaybackStarted(source: SourceHandle)
      requires Valid()
      modifies this
      ensures Valid()
      ensures audioSource == Some(source)
      ensures state == old(state) && error == old(error) && hasAudioContext == old(hasAudioContext)
    {
      audioSource := Some(source);
    }

    /** `source.onended`: playback finished; the node reference is kept. */
    method OnPlaybackEnded()
      requires Valid()
      modifies this
      ensures Valid()
      ensures state == old(state).(isSpeaking := false)
      ensures error == old(error) && audioSource == old(audioSource) && hasAudioContext == old(hasAudioContext)
    {
      state := state.(isSpeaking := false);
    }

    /** The `online` window event. */
    method OnOnline()
      requires Valid()
      modifies this
      ensures Valid()
      ensures state == old(state).(isOnline := true)
      ensures error == old(error) && audioSource == old(audioSource) && hasAudioContext == old(hasAudioContext)
    {
      state := state.(isOnline := true);
    }

    /** The `offline` window event. */
    method OnOffline()
      requires Valid()
      modifies this
      ensures Valid()
      ensures state == old(state).(isOnline := false)
      ensures error == old(error) && audioSource == old(audioSource) && hasAudioContext == old(hasAudioContext)
    {
      state := state.(isOnline := false);
    }

    /** The swap button. */
    method Swap()
      requires Valid()
      modifies this
      ensures Valid()
      ensures state == Swapped(old(state))
      ensures error == old(error) && audioSource == old(audioSource) && hasAudioContext == old(hasAudioContext)
    {
      state := Swapped(state);
    }

    /** The text area, and the speech recognition result, replace the input text. */
    method SetOriginalText(text: string)
      requires Valid()
      modifies this
      ensures Valid()
      ensures state == old(state).(originalText := text)
      ensures error == old(error) && audioSource == old(audioSource) && hasAudioContext == old(hasAudioContext)
    {
      state := state.(originalText := text);
    }

    /** The source language menu. */
    method SetSourceLang(code: string)
      requires Valid()
      modifies this
      ensures Valid()
      ensures state == old(state).(sourceLang := code)
      ensures error == old(error) && audioSource == old(audioSource) && hasAudioContext == old(hasAudioContext)
    {
      state := state.(sourceLang := code);
    }

    /** The target language menu. */
    method SetTargetLang(code: string)
      requires Valid()
      modifies this
      ensures Valid()
      ensures state == old(state).(targetLang := code)
      ensures error == old(error) && audioSource == old(audioSource) && hasAudioContext == old(hasAudioContext)
    {
      state := state.(targetLang := code);
    }

    /** The gender buttons. */
    method SelectGender(gender: Gender)
      requires Valid()
      modifies this
      ensures Valid()
      ensures state == old(state).(selectedGender := gender)
      ensures error == old(error) && audioSource == old(audioSource) && hasAudioContext == old(hasAudioContext)
    {
      state := state.(selectedGender := gender);
    }

    /** The News Mode button flips news mode. */
    method ToggleNewsMode()
      requires Valid()
      modifies this
      ensures Valid()
      ensures state == old(state).(isNewsMode := !old(state).isNewsMode)
      ensures error == old(error) && audioSource == old(audioSource) && hasAudioContext == old(hasAudioContext)
    {
      state := state.(isNewsMode := !state.isNewsMode);
    }

    /** A voice button selects that voice. */
    method SelectVoice(name: string)
      requires Valid()
      modifies this
      ensures Valid()
      ensures state == old(state).(selectedVoice := name)
      ensures error == old(error) && audioSource == old(audioSource) && hasAudioContext == old(hasAudioContext)
    {
      state := state.(selectedVoice := name);
    }
  }

  // ---------------------------------------------------------------------------------
  // What a caller can conclude from the contracts alone

  /** Offline, a capitalised "Hello" with spaces around it is answered from the phrasebook. */
  method OfflineHelloScenario() {
    var session := new Session([], false);
    session.SetOriginalText(" Hello ");
    OfflineHelloPadded();
    OfflineHitNotBlank(" Hello ", "bn");
    var request := session.HandleTranslate();
    assert request == None && session.state.translatedText == "নমস্কার / হ্যালো";
    assert session.state.history == [];
  }

  /**
   * Stop is pressed after the audio URL is shown but before the buffer starts playing:
   * the playback that starts afterwards runs while the speaking flag is down.
   */
  method StopBeforePlaybackScenario() {
    var session := new Session([], true);
    session.SetOriginalText("hi");
    assert Trim("hi") != "" by { assert !IsWhiteSpace("hi"[0]); }
    var t := session.HandleTranslate();
    session.OnTranslationSucceeded(t.value, Some("hola"), "id-1", 0);
    assert |session.state.history| == 1 && session.state.translatedText == "hola";
    var speech, _ := session.HandleSpeak();
    assert speech.Some? && session.state.isGeneratingSpeech;
    AudioPayloadOfResponse("UklGRg==");
    var payload := session.OnSpeechResponse(ResponseWithAudio("UklGRg=="), "blob:1");
    assert payload == Some("UklGRg==") && session.state.isSpeaking;
    var again, stopped := session.HandleSpeak();
    assert again == None && stopped == None && !session.state.isSpeaking;
    session.OnPlaybackStarted(7);
    assert session.audioSource == Some(7) && !session.state.isSpeaking;
  }
}
